/**
 * The todo list as a value: the record, and what `mark`, `delete` and `clear done`
 * make of a list. The class in module App applies these to its own field.
 */
module TodoList {
  import opened Wrappers
  import PyInt

  datatype Todo = Todo(tag: string, content: string, done: bool)

  /** The list an operation leaves behind, and the exception it raised, if any. */
  datatype Edited = Edited(list: seq<Todo>, error: Option<PyError>)

  /** The value used as a list subscript in `del todos[idx]`: Python accepts an int and refuses a str. */
  datatype Subscript = IntSubscript(i: int) | StrSubscript(s: string)

  function Toggled(t: Todo): (r: Todo) {
    t.(done := !t.done)
  }

  /** Python's reading of an int subscript on a list of length n (negative counts from the end). */
  function ResolveIndex(i: int, n: nat): (r: Option<nat>)
    ensures r.Some? <==> -(n as int) <= i < n
    ensures r.Some? ==> r.value < n && (r.value == i || r.value == i + n)
  {
    if 0 <= i < n then Some(i) else if -(n as int) <= i < 0 then Some(i + n) else None
  }

  /** list.pop(k) / del list[k] for a resolved position k. */
  function RemoveAt(s: seq<Todo>, k: nat): (r: seq<Todo>)
    requires k < |s|
    ensures |r| == |s| - 1
    ensures forall j :: 0 <= j < k ==> r[j] == s[j]
    ensures forall j :: k <= j < |r| ==> r[j] == s[j + 1]
  {
    s[..k] + s[k + 1..]
  }

  /** mark_as_done(idx): "all" flips every flag; otherwise int(idx) names the one item to flip. */
  function Marked(s: seq<Todo>, idx: string): (r: Edited)
    ensures |r.list| == |s|
    ensures r.error.Some? ==> r.list == s
    ensures idx == "all" ==> r.error == None && forall j :: 0 <= j < |s| ==> r.list[j] == Toggled(s[j])
    ensures idx != "all" ==> (r.error == Some(ValueError) <==> PyInt.ParseInt(idx).None?)
    ensures idx != "all" && PyInt.ParseInt(idx).Some? ==>
              (r.error == None <==> -|s| <= PyInt.ParseInt(idx).value < |s|) &&
              (r.error.Some? ==> r.error == Some(IndexError))
  {
    if idx == "all" then
      Edited(seq(|s|, j requires 0 <= j < |s| => Toggled(s[j])), None)
    else
      match PyInt.ParseInt(idx)
      case None => Edited(s, Some(ValueError))
      case Some(i) =>
        match ResolveIndex(i, |s|)
        case None => Edited(s, Some(IndexError))
        case Some(k) => Edited(s[k := Toggled(s[k])], None)
  }

  /** `mark all` is a toggle, not a set: doing it twice gives the original list back. */
  lemma MarkAllTwice(s: seq<Todo>)
    ensures Marked(Marked(s, "all").list, "all").list == s
  {
  }

  /** A successful `mark <i>` flips exactly the item at Python index i and nothing else. */
  lemma MarkOne(s: seq<Todo>, idx: string, i: int)
    requires idx != "all" && PyInt.ParseInt(idx) == Some(i) && -|s| <= i < |s|
    ensures var k := if i < 0 then i + |s| else i;
            && Marked(s, idx).error == None
            && Marked(s, idx).list[k] == s[k].(done := !s[k].done)
            && forall j :: 0 <= j < |s| && j != k ==> Marked(s, idx).list[j] == s[j]
  {
  }

  /** del todos[idx]: an int removes the item at that Python index; a str raises TypeError. */
  function Deleted(s: seq<Todo>, idx: Subscript): (r: Edited)
    ensures r.error.Some? ==> r.list == s
    ensures idx.StrSubscript? ==> r.error == Some(TypeError)
    ensures idx.IntSubscript? ==> (r.error == None <==> -|s| <= idx.i < |s|)
    ensures idx.IntSubscript? && r.error.Some? ==> r.error == Some(IndexError)
    ensures idx.IntSubscript? && r.error == None ==> r.list == RemoveAt(s, ResolveIndex(idx.i, |s|).value)
    ensures r.error == None ==> |r.list| == |s| - 1 && multiset(r.list) < multiset(s)
  {
    match idx
    case StrSubscript(_) => Edited(s, Some(TypeError))
    case IntSubscript(i) =>
      match ResolveIndex(i, |s|)
      case None => Edited(s, Some(IndexError))
      case Some(k) =>
        assert s == s[..k] + [s[k]] + s[k + 1..];
        Edited(RemoveAt(s, k), None)
  }

  /**
   * One step of `[todos.pop(idx) for idx in range(stop) if todos[idx].done]`:
   * `stop` is fixed before the first pop, so the index runs past items that shifted
   * left, and reading todos[idx] beyond the shortened list raises IndexError.
   */
  function ClearDoneFrom(cur: seq<Todo>, idx: nat, stop: int): (r: Edited)
    decreases stop - idx
  {
    if idx >= stop then Edited(cur, None)
    else if idx >= |cur| then Edited(cur, Some(IndexError))
    else if cur[idx].done then ClearDoneFrom(RemoveAt(cur, idx), idx + 1, stop)
    else ClearDoneFrom(cur, idx + 1, stop)
  }

  /** clear("done") as written: the index runs over range(len(todos) - 1) of the original length. */
  function ClearedDone(s: seq<Todo>): (r: Edited)
  {
    ClearDoneFrom(s, 0, |s| - 1)
  }

  /** The not-done items of a list, in order: what clearing the done items is meant to leave. */
  function Undone(s: seq<Todo>): (r: seq<Todo>)
  {
    if s == [] then []
    else if s[0].done then Undone(s[1..])
    else [s[0]] + Undone(s[1..])
  }

  function CountDone(s: seq<Todo>): (n: nat)
  {
    if s == [] then 0 else (if s[0].done then 1 else 0) + CountDone(s[1..])
  }

  /** a can be obtained from b by deleting items, keeping the order of the rest. */
  predicate IsSubsequence<T(==)>(a: seq<T>, b: seq<T>)
    decreases |b|
  {
    if a == [] then true
    else if b == [] then false
    else (a[0] == b[0] && IsSubsequence(a[1..], b[1..])) || IsSubsequence(a, b[1..])
  }

  lemma {:induction false} SubsequenceRefl<T>(s: seq<T>)
    ensures IsSubsequence(s, s)
    decreases |s|
  {
    if s != [] {
      SubsequenceRefl(s[1..]);
    }
  }

  lemma {:induction false} SubsequenceTrans<T>(a: seq<T>, b: seq<T>, c: seq<T>)
    requires IsSubsequence(a, b) && IsSubsequence(b, c)
    ensures IsSubsequence(a, c)
    decreases |c|
  {
    if a != [] {
      assert b != [] && c != [];
      if b[0] == c[0] && IsSubsequence(b[1..], c[1..]) {
        if a[0] == b[0] && IsSubsequence(a[1..], b[1..]) {
          SubsequenceTrans(a[1..], b[1..], c[1..]);
        } else {
          SubsequenceTrans(a, b[1..], c[1..]);
        }
      } else {
        SubsequenceTrans(a, b, c[1..]);
      }
    }
  }

  lemma {:induction false} SubsequenceRemoveAt(s: seq<Todo>, k: nat)
    requires k < |s|
    ensures IsSubsequence(RemoveAt(s, k), s)
    decreases k
  {
    var r := RemoveAt(s, k);
    if k == 0 {
      assert r == s[1..];
      SubsequenceRefl(s[1..]);
    } else {
      assert r[0] == s[0];
      assert r[1..] == RemoveAt(s[1..], k - 1);
      SubsequenceRemoveAt(s[1..], k - 1);
    }
  }

  lemma {:induction false} UndoneAppend(a: seq<Todo>, b: seq<Todo>)
    ensures Undone(a + b) == Undone(a) + Undone(b)
    decreases |a|
  {
    if a != [] {
      assert (a + b)[1..] == a[1..] + b;
      UndoneAppend(a[1..], b);
    } else {
      assert a + b == b;
    }
  }

  lemma {:induction false} CountDoneAppend(a: seq<Todo>, b: seq<Todo>)
    ensures CountDone(a + b) == CountDone(a) + CountDone(b)
    decreases |a|
  {
    if a != [] {
      assert (a + b)[1..] == a[1..] + b;
      CountDoneAppend(a[1..], b);
    } else {
      assert a + b == b;
    }
  }

  /** Popping a done item changes neither the not-done items nor their order, and lowers the done count by one. */
  lemma RemoveDone(s: seq<Todo>, k: nat)
    requires k < |s| && s[k].done
    ensures Undone(RemoveAt(s, k)) == Undone(s)
    ensures CountDone(RemoveAt(s, k)) + 1 == CountDone(s)
  {
    assert s == s[..k] + ([s[k]] + s[k + 1..]);
    UndoneAppend(s[..k], [s[k]] + s[k + 1..]);
    UndoneAppend(s[..k], s[k + 1..]);
    CountDoneAppend(s[..k], [s[k]] + s[k + 1..]);
    CountDoneAppend(s[..k], s[k + 1..]);
    assert ([s[k]] + s[k + 1..])[1..] == s[k + 1..];
  }

  lemma {:induction false} ClearDoneFromKeepsUndone(cur: seq<Todo>, idx: nat, stop: int)
    ensures IsSubsequence(ClearDoneFrom(cur, idx, stop).list, cur)
    ensures Undone(ClearDoneFrom(cur, idx, stop).list) == Undone(cur)
    decreases stop - idx
  {
    if idx >= stop || idx >= |cur| {
      SubsequenceRefl(cur);
    } else if cur[idx].done {
      var next := RemoveAt(cur, idx);
      ClearDoneFromKeepsUndone(next, idx + 1, stop);
      SubsequenceRemoveAt(cur, idx);
      SubsequenceTrans(ClearDoneFrom(next, idx + 1, stop).list, next, cur);
      RemoveDone(cur, idx);
    } else {
      ClearDoneFromKeepsUndone(cur, idx + 1, stop);
    }
  }

  /**
   * Whatever clear("done") leaves behind, even when it stops with IndexError, is a subsequence
   * of the original list that still holds every not-done item, in order: only done items are popped.
   */
  lemma ClearedDoneKeepsUndone(s: seq<Todo>)
    ensures IsSubsequence(ClearedDone(s).list, s)
    ensures Undone(ClearedDone(s).list) == Undone(s)
  {
    ClearDoneFromKeepsUndone(s, 0, |s| - 1);
  }

  lemma {:induction false} ClearDoneFromNoDone(cur: seq<Todo>, idx: nat, stop: int)
    requires stop <= |cur|
    requires forall j :: idx <= j < stop ==> !cur[j].done
    ensures ClearDoneFrom(cur, idx, stop) == Edited(cur, None)
    decreases stop - idx
  {
    if idx < stop {
      ClearDoneFromNoDone(cur, idx + 1, stop);
    }
  }

  /**
   * clear("done") never examines the last position of the original list before something
   * was popped: a list whose only done item is the last one comes back unchanged.
   */
  lemma ClearedDoneKeepsLast(s: seq<Todo>)
    requires forall j :: 0 <= j < |s| - 1 ==> !s[j].done
    ensures ClearedDone(s) == Edited(s, None)
  {
    ClearDoneFromNoDone(s, 0, |s| - 1);
  }

  lemma {:induction false} ClearDoneFromFailure(cur: seq<Todo>, idx: nat, stop: int)
    ensures ClearDoneFrom(cur, idx, stop).error.Some? ==> CountDone(cur) + stop >= |cur| + 1
    decreases stop - idx
  {
    if idx < stop && idx < |cur| {
      if cur[idx].done {
        ClearDoneFromFailure(RemoveAt(cur, idx), idx + 1, stop);
        RemoveDone(cur, idx);
      } else {
        ClearDoneFromFailure(cur, idx + 1, stop);
      }
    }
  }

  /** clear("done") can only fail with IndexError, and only on a list with at least two done items. */
  lemma ClearedDoneFailure(s: seq<Todo>)
    ensures ClearedDone(s).error.Some? ==> ClearedDone(s).error == Some(IndexError) && CountDone(s) >= 2
  {
    ClearDoneFromFailure(s, 0, |s| - 1);
    ClearDoneErrorIsIndex(s, 0, |s| - 1);
  }

  lemma {:induction false} ClearDoneErrorIsIndex(cur: seq<Todo>, idx: nat, stop: int)
    ensures ClearDoneFrom(cur, idx, stop).error.Some? ==> ClearDoneFrom(cur, idx, stop).error == Some(IndexError)
    decreases stop - idx
  {
    if idx < stop && idx < |cur| {
      if cur[idx].done {
        ClearDoneErrorIsIndex(RemoveAt(cur, idx), idx + 1, stop);
      } else {
        ClearDoneErrorIsIndex(cur, idx + 1, stop);
      }
    }
  }

  /** Four done items: the index reaches the shortened list at 2 and clear("done") raises IndexError. */
  lemma ClearedDoneFourDone(t: Todo)
    requires t.done
    ensures ClearedDone([t, t, t, t]) == Edited([t, t], Some(IndexError))
  {
    var s := [t, t, t, t];
    assert RemoveAt(s, 0) == [t, t, t];
    assert RemoveAt([t, t, t], 1) == [t, t];
    assert ClearDoneFrom([t, t], 2, 3) == Edited([t, t], Some(IndexError));
  }

  /** Two adjacent done items: the second shifts into the freed slot and is skipped. */
  lemma ClearedDoneSkipsShifted(a: Todo, b: Todo, c: Todo)
    requires a.done && b.done && !c.done
    ensures ClearedDone([a, b, c]) == Edited([b, c], None)
  {
    assert RemoveAt([a, b, c], 0) == [b, c];
    assert ClearDoneFrom([b, c], 1, 2) == ClearDoneFrom([b, c], 2, 2);
  }
}
