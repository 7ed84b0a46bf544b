/**
 * Vocabulary shared by both controllers: identifiers, controlled links,
 * and the classification of a phase's signal string ("GGrr", "yyrr", ...).
 */
module Signals {

  type TlsId = string
  type Lane = string
  type DetId = string

  datatype Option<T> = None | Some(value: T)

  /** One controlled link of a traffic light: the lane a vehicle comes from,
      the lane it goes to, and the internal lane it crosses on. */
  datatype Link = Link(incoming: Lane, outgoing: Lane, via: Lane)

  /** Lower-casing of one character (ASCII letters only). */
  function LowerChar(c: char): (r: char)
    ensures 'A' <= c <= 'Z' ==> 'a' <= r <= 'z' && r as int == c as int + 32
    ensures !('A' <= c <= 'Z') ==> r == c
  {
    if 'A' <= c <= 'Z' then (c as int + 32) as char else c
  }

  /** Lower-casing of a signal string, character by character. */
  function Lower(s: string): (r: string)
    ensures |r| == |s|
    ensures forall i :: 0 <= i < |s| ==> r[i] == LowerChar(s[i])
  {
    seq(|s|, i requires 0 <= i < |s| => LowerChar(s[i]))
  }

  /** The lower-cased string contains `c` exactly when the original contains
      `c` or its upper-case form. */
  lemma LowerContains(s: string, c: char)
    requires 'a' <= c <= 'z'
    ensures c in Lower(s) <==> c in s || (c as int - 32) as char in s
  {
    var u := (c as int - 32) as char;
    if c in Lower(s) {
      var i :| 0 <= i < |s| && Lower(s)[i] == c;
      assert s[i] == c || s[i] == u;
    }
    if c in s {
      var i :| 0 <= i < |s| && s[i] == c;
      assert Lower(s)[i] == c;
    }
    if u in s {
      var i :| 0 <= i < |s| && s[i] == u;
      assert Lower(s)[i] == c;
    }
  }

  /** A phase is a green phase when its lower-cased state shows at least one
      'g' and no 'y'. */
  predicate IsGreenState(state: string)
  {
    'g' in Lower(state) && 'y' !in Lower(state)
  }

  /** A phase is a yellow (clearance) phase when its lower-cased state shows a 'y'. */
  predicate HasYellow(state: string)
  {
    'y' in Lower(state)
  }

  /** Green as the threshold controller reads it: a 'g' in the lower-cased
      state, whatever else the state shows. */
  predicate HasGreen(state: string)
  {
    'g' in Lower(state)
  }

  lemma GreenStateByLetters(state: string)
    ensures IsGreenState(state) <==>
              ('g' in state || 'G' in state) && 'y' !in state && 'Y' !in state
  {
    LowerContains(state, 'g');
    LowerContains(state, 'y');
  }

  predicate Distinct<T(==)>(xs: seq<T>)
  {
    forall i, j :: 0 <= i < j < |xs| ==> xs[i] != xs[j]
  }

  /** The keys of a dictionary in insertion order, after the lights `ids`
      are stored one by one: a light not yet present goes last, a present
      one keeps its place. */
  function EnterOrder(order: seq<TlsId>, ids: seq<TlsId>): seq<TlsId>
  {
    if ids == [] then order
    else
      var o := EnterOrder(order, ids[..|ids| - 1]);
      var id := ids[|ids| - 1];
      if id in o then o else o + [id]
  }

  lemma EnterOrderNext(order: seq<TlsId>, ids: seq<TlsId>, i: nat)
    requires i < |ids|
    ensures EnterOrder(order, ids[..i + 1]) == EnterOrder(EnterOrder(order, ids[..i]), [ids[i]])
  {
    assert ids[..i + 1][..i] == ids[..i];
    assert [ids[i]][..0] == [];
  }

  /** Storing distinct lights in a fresh dictionary lists them in the
      order they were stored. */
  lemma {:induction false} EnterOrderFresh(ids: seq<TlsId>)
    requires Distinct(ids)
    ensures EnterOrder([], ids) == ids
  {
    if ids != [] {
      var init := ids[..|ids| - 1];
      assert Distinct(init);
      EnterOrderFresh(init);
      assert ids[|ids| - 1] !in init;
      assert init + [ids[|ids| - 1]] == ids;
    }
  }

  /** The order after entering `ids` keeps the old order as a prefix and
      lists exactly the old lights and the entered ones. */
  lemma {:induction false} EnterOrderMembers(order: seq<TlsId>, ids: seq<TlsId>)
    ensures order <= EnterOrder(order, ids)
    ensures forall id :: id in EnterOrder(order, ids) <==> id in order || id in ids
  {
    if ids != [] {
      var init := ids[..|ids| - 1];
      EnterOrderMembers(order, init);
      assert forall id :: id in ids <==> id in init || id == ids[|ids| - 1];
      var o := EnterOrder(order, init);
      assert forall k :: 0 <= k < |o| ==> (o + [ids[|ids| - 1]])[k] == o[k];
    }
  }
}
