/** Small building blocks shared by every part of the model: an optional
    value, and the array idioms the source writes with `map`, `filter` and
    `find` (update the entries whose id matches, drop them, find the first). */
module Common {

  /** `undefined`/`null` versus a present value. */
  datatype Option<T> = None | Some(value: T)

  /** `s.map(x => matches(x) ? update(x) : x)`: every matching entry is
      replaced by its update, in place; nothing else moves. */
  function UpdateWhere<T>(s: seq<T>, matches: T -> bool, update: T -> T): (r: seq<T>)
    ensures |r| == |s|
    ensures forall i :: 0 <= i < |s| && !matches(s[i]) ==> r[i] == s[i]
    ensures forall i :: 0 <= i < |s| && matches(s[i]) ==> r[i] == update(s[i])
  {
    if s == [] then []
    else [if matches(s[0]) then update(s[0]) else s[0]] + UpdateWhere(s[1..], matches, update)
  }

  /** `s.filter(x => !matches(x))`: the entries that do not match, in their
      original relative order. */
  function RemoveWhere<T>(s: seq<T>, matches: T -> bool): (r: seq<T>)
    ensures |r| <= |s|
    ensures forall i :: 0 <= i < |r| ==> r[i] in s && !matches(r[i])
    ensures forall i :: 0 <= i < |s| && !matches(s[i]) ==> s[i] in r
  {
    if s == [] then []
    else (if matches(s[0]) then [] else [s[0]]) + RemoveWhere(s[1..], matches)
  }

  /** Filtering distributes over concatenation: together with the
      one-element case this pins down the relative order of the survivors. */
  lemma {:induction false} RemoveWhereConcat<T>(a: seq<T>, b: seq<T>, matches: T -> bool)
    ensures RemoveWhere(a + b, matches) == RemoveWhere(a, matches) + RemoveWhere(b, matches)
  {
    if a == [] {
      assert a + b == b;
    } else {
      assert (a + b)[1..] == a[1..] + b;
      RemoveWhereConcat(a[1..], b, matches);
    }
  }

  /** Filtering twice with the same test is filtering once. */
  lemma {:induction false} RemoveWhereIdempotent<T>(s: seq<T>, matches: T -> bool)
    ensures RemoveWhere(RemoveWhere(s, matches), matches) == RemoveWhere(s, matches)
  {
    if s != [] {
      RemoveWhereIdempotent(s[1..], matches);
      var head := if matches(s[0]) then [] else [s[0]];
      RemoveWhereConcat(head, RemoveWhere(s[1..], matches), matches);
      if !matches(s[0]) {
        assert RemoveWhere(head, matches) == head by {
          assert head[1..] == [];
        }
      }
    }
  }

  /** Entry `i` matches and no entry before it does. */
  predicate FirstMatchAt<T>(s: seq<T>, matches: T -> bool, i: int)
  {
    0 <= i < |s| && matches(s[i]) && forall j :: 0 <= j < i ==> !matches(s[j])
  }

  /** `s.find(matches)`: the first matching entry, if there is one. */
  function FindFirst<T>(s: seq<T>, matches: T -> bool): (r: Option<T>)
    ensures r.None? <==> forall i :: 0 <= i < |s| ==> !matches(s[i])
    ensures r.Some? ==> exists i :: FirstMatchAt(s, matches, i) && s[i] == r.value
    ensures forall i :: FirstMatchAt(s, matches, i) ==> r == Some(s[i])
  {
    if s == [] then None
    else if matches(s[0]) then
      assert FirstMatchAt(s, matches, 0);
      Some(s[0])
    else
      var r := FindFirst(s[1..], matches);
      assert forall i :: FirstMatchAt(s, matches, i) ==> i > 0 && FirstMatchAt(s[1..], matches, i - 1);
      assert forall i :: FirstMatchAt(s[1..], matches, i) ==> FirstMatchAt(s, matches, i + 1);
      r
  }

  /** Appending an entry leaves the first match where it was; the new entry
      is found only when nothing before it matches. */
  lemma {:induction false} FindFirstAppend<T>(s: seq<T>, x: T, matches: T -> bool)
    ensures FindFirst(s + [x], matches) ==
            (if FindFirst(s, matches).Some? then FindFirst(s, matches)
             else if matches(x) then Some(x) else None)
  {
    if s == [] {
      assert s + [x] == [x];
    } else {
      assert (s + [x])[1..] == s[1..] + [x];
      FindFirstAppend(s[1..], x, matches);
    }
  }

  /** Updating entries in place, with an update that does not change whether
      an entry matches, finds the update of what was found before. */
  lemma {:induction false} FindFirstAfterUpdate<T>(s: seq<T>, selected: T -> bool, update: T -> T,
                                                   matches: T -> bool)
    requires forall x :: selected(x) ==> matches(update(x)) == matches(x)
    ensures FindFirst(UpdateWhere(s, selected, update), matches) ==
            (match FindFirst(s, matches)
             case None => None
             case Some(x) => Some(if selected(x) then update(x) else x))
  {
    if s != [] {
      FindFirstAfterUpdate(s[1..], selected, update, matches);
      var u := UpdateWhere(s, selected, update);
      assert u[1..] == UpdateWhere(s[1..], selected, update);
    }
  }
}
