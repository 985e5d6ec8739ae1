/** The tactic list shown on the landing page: distinct values in order of first appearance. */
module Tactics {
  import opened Records

  function TacticsOf(abilities: seq<Ability>): (r: seq<string>)
    ensures |r| == |abilities| && forall k :: 0 <= k < |r| ==> r[k] == abilities[k].tactic
  {
    if abilities == [] then [] else TacticsOf(abilities[..|abilities| - 1]) + [abilities[|abilities| - 1].tactic]
  }

  /** Keeps an element when it has not been kept before, scanning left to right. */
  function FirstSeen(s: seq<string>): (r: seq<string>)
  {
    if s == [] then []
    else
      var kept := FirstSeen(s[..|s| - 1]);
      if s[|s| - 1] in kept then kept else kept + [s[|s| - 1]]
  }

  /** The position where `x` first occurs in `s`. */
  function FirstIndex(s: seq<string>, x: string): (i: nat)
    requires x in s
    ensures i < |s| && s[i] == x && x !in s[..i]
  {
    if s[0] == x then 0
    else
      var i := FirstIndex(s[1..], x);
      assert s[..i + 1] == [s[0]] + s[1..][..i];
      i + 1
  }

  /** A prefix that contains `x` has it first where the whole sequence does. */
  lemma FirstIndexPrefix(s: seq<string>, n: nat, x: string)
    requires n <= |s| && x in s[..n]
    ensures FirstIndex(s, x) == FirstIndex(s[..n], x)
  {
    var i, j := FirstIndex(s, x), FirstIndex(s[..n], x);
    assert s[..n][..j] == s[..j];
  }

  /** The kept values are exactly the values of the input. */
  lemma {:induction false} FirstSeenMembers(s: seq<string>, x: string)
    ensures x in FirstSeen(s) <==> x in s
  {
    if s != [] {
      var m := |s| - 1;
      FirstSeenMembers(s[..m], x);
      assert s == s[..m] + [s[m]];
    }
  }

  /** No value is kept twice. */
  lemma {:induction false} FirstSeenDistinct(s: seq<string>)
    ensures forall i, j :: 0 <= i < j < |FirstSeen(s)| ==> FirstSeen(s)[i] != FirstSeen(s)[j]
  {
    if s != [] {
      FirstSeenDistinct(s[..|s| - 1]);
    }
  }

  /** The kept values appear in the order of their first occurrence in the input. */
  lemma {:induction false} FirstSeenOrder(s: seq<string>)
    ensures forall k :: 0 <= k < |FirstSeen(s)| ==> FirstSeen(s)[k] in s
    ensures forall i, j :: 0 <= i < j < |FirstSeen(s)| ==>
              FirstIndex(s, FirstSeen(s)[i]) < FirstIndex(s, FirstSeen(s)[j])
  {
    if s != [] {
      var m := |s| - 1;
      var p, kept, r := s[..m], FirstSeen(s[..m]), FirstSeen(s);
      FirstSeenOrder(p);
      assert s == p + [s[m]];
      forall k | 0 <= k < |kept|
        ensures kept[k] in s && FirstIndex(s, kept[k]) == FirstIndex(p, kept[k]) < m
      {
        FirstIndexPrefix(s, m, kept[k]);
      }
      if s[m] !in kept {
        FirstSeenMembers(p, s[m]);
        assert s[..m] == p;
        assert FirstIndex(s, s[m]) == m;
      }
    }
  }

  /**
   * The landing page's tactic list: every ability's tactic is in it, everything in it is
   * some ability's tactic, no value twice, in order of first appearance.
   */
  lemma LandingTactics(abilities: seq<Ability>)
    ensures var r := FirstSeen(TacticsOf(abilities));
      && (forall k :: 0 <= k < |abilities| ==> abilities[k].tactic in r)
      && (forall x :: x in r ==> exists k :: 0 <= k < |abilities| && abilities[k].tactic == x)
      && (forall i, j :: 0 <= i < j < |r| ==> r[i] != r[j])
      && (forall k :: 0 <= k < |r| ==> r[k] in TacticsOf(abilities))
      && (forall i, j :: 0 <= i < j < |r| ==> FirstIndex(TacticsOf(abilities), r[i]) < FirstIndex(TacticsOf(abilities), r[j]))
  {
    var ts := TacticsOf(abilities);
    var r := FirstSeen(ts);
    forall k | 0 <= k < |abilities| ensures abilities[k].tactic in r {
      assert ts[k] == abilities[k].tactic;
      FirstSeenMembers(ts, abilities[k].tactic);
    }
    forall x | x in r ensures exists k :: 0 <= k < |abilities| && abilities[k].tactic == x {
      FirstSeenMembers(ts, x);
      var k := FirstIndex(ts, x);
      assert abilities[k].tactic == x;
    }
    FirstSeenDistinct(ts);
    FirstSeenOrder(ts);
  }
}
