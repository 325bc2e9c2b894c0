/**
 * What a JavaScript regular expression `(k1|k2|...)` with the `i` flag does on `text.match(re)`,
 * stated directly over strings: the first position, scanning from the left, where some
 * alternative matches, and there the first alternative in list order. Each alternative is a
 * literal (its special characters escaped), and `i` compares both sides case-folded.
 */
module Alternation {
  import opened Strings
  import opened Wrappers

  /** Alternative `a` matches `s` at `p`, ignoring letter case. */
  predicate MatchesAt(s: string, a: string, p: int) {
    OccursAt(Lower(s), Lower(a), p)
  }

  /** The first alternative, in list order, that matches at `p`. */
  function FirstAt(s: string, alts: seq<string>, p: int): (r: Option<string>)
    ensures r.None? <==> forall i :: 0 <= i < |alts| ==> !MatchesAt(s, alts[i], p)
    ensures r.Some? ==> exists i :: 0 <= i < |alts| && alts[i] == r.value && MatchesAt(s, r.value, p)
                                   && forall j :: 0 <= j < i ==> !MatchesAt(s, alts[j], p)
  {
    if alts == [] then None
    else if MatchesAt(s, alts[0], p) then Some(alts[0])
    else
      var r := FirstAt(s, alts[1..], p);
      assert forall i :: 1 <= i < |alts| ==> alts[i] == alts[1..][i - 1];
      r
  }

  /** A successful match: where it starts and which alternative matched. */
  datatype Match = Match(at: nat, alt: string)

  /** No alternative matches anywhere in `[from, upto)`. */
  predicate NoneBetween(s: string, alts: seq<string>, from: int, upto: int) {
    forall q, i :: from <= q < upto && 0 <= i < |alts| ==> !MatchesAt(s, alts[i], q)
  }

  /** The scan from position `p` on. */
  function Search(s: string, alts: seq<string>, p: nat): (r: Option<Match>)
    ensures r.None? ==> NoneBetween(s, alts, p, |s| + 1)
    ensures r.Some? ==> p <= r.value.at <= |s| && r.value.alt in alts
                        && FirstAt(s, alts, r.value.at) == Some(r.value.alt)
                        && NoneBetween(s, alts, p, r.value.at)
    decreases |s| + 1 - p
  {
    if p > |s| then None
    else
      match FirstAt(s, alts, p)
      case Some(a) => Some(Match(p, a))
      case None =>
        var r := Search(s, alts, p + 1);
        NoneBetweenExtend(s, alts, p, if r.Some? then r.value.at else |s| + 1);
        r
  }

  /** No match at `p` and none in `(p, upto)` means none in `[p, upto)`. */
  lemma NoneBetweenExtend(s: string, alts: seq<string>, p: int, upto: int)
    requires forall i :: 0 <= i < |alts| ==> !MatchesAt(s, alts[i], p)
    requires NoneBetween(s, alts, p + 1, upto)
    ensures NoneBetween(s, alts, p, upto)
  {
  }

  /** `text.match(new RegExp("(" + alts.join("|") + ")", "i"))`. */
  function Exec(s: string, alts: seq<string>): (r: Option<Match>)
    ensures r.Some? ==> r.value.alt in alts && r.value.at <= |s|
    ensures alts == [] ==> r.None?
  {
    Search(s, alts, 0)
  }

  /** The order the alternatives are built in: longest first. */
  predicate LongestFirst(alts: seq<string>) {
    forall i, j :: 0 <= i < j < |alts| ==> |alts[i]| >= |alts[j]|
  }

  /** With the alternatives longest first, the one chosen at a position is a longest one matching there. */
  lemma LongestAtPosition(s: string, alts: seq<string>, p: int, a: string)
    requires LongestFirst(alts) && FirstAt(s, alts, p).Some?
    requires a in alts && MatchesAt(s, a, p)
    ensures |a| <= |FirstAt(s, alts, p).value|
  {
    var k := FirstAt(s, alts, p).value;
    var i :| 0 <= i < |alts| && alts[i] == k && MatchesAt(s, k, p)
             && forall j :: 0 <= j < i ==> !MatchesAt(s, alts[j], p);
    var j :| 0 <= j < |alts| && alts[j] == a;
    if j < i {
      assert !MatchesAt(s, alts[j], p);
    }
  }

  /**
   * The semantics of the product matcher: no match exactly when no alternative occurs anywhere;
   * otherwise the match is at the leftmost position where any alternative occurs, and it is the
   * longest alternative occurring there. It is not the longest alternative occurring in the text.
   */
  lemma ExecLeftmostLongest(s: string, alts: seq<string>)
    requires LongestFirst(alts)
    ensures Exec(s, alts).None? <==> NoneBetween(s, alts, 0, |s| + 1)
    ensures Exec(s, alts).Some? ==>
      var m := Exec(s, alts).value;
      && m.alt in alts && MatchesAt(s, m.alt, m.at)
      && NoneBetween(s, alts, 0, m.at)
      && forall a :: a in alts && MatchesAt(s, a, m.at) ==> |a| <= |m.alt|
  {
    var r := Exec(s, alts);
    if r.Some? {
      var m := r.value;
      forall a | a in alts && MatchesAt(s, a, m.at)
        ensures |a| <= |m.alt|
      {
        LongestAtPosition(s, alts, m.at, a);
      }
    } else {
      assert NoneBetween(s, alts, 0, |s| + 1);
    }
  }

  /** Two alternatives of one length matching at one position are the same up to letter case. */
  lemma SameLengthSameText(s: string, a: string, b: string, p: int)
    requires MatchesAt(s, a, p) && MatchesAt(s, b, p) && |a| == |b|
    ensures Lower(a) == Lower(b)
  {
  }

  /**
   * Which key matches depends only on the set of alternatives, not on how keys of equal length are
   * ordered: any two longest-first orderings of the same keys find the same match (up to case).
   */
  lemma ExecOrderIrrelevant(s: string, alts1: seq<string>, alts2: seq<string>)
    requires LongestFirst(alts1) && LongestFirst(alts2)
    requires forall a :: a in alts1 <==> a in alts2
    ensures Exec(s, alts1).None? <==> Exec(s, alts2).None?
    ensures Exec(s, alts1).Some? && Exec(s, alts2).Some? ==>
      Exec(s, alts1).value.at == Exec(s, alts2).value.at
      && Lower(Exec(s, alts1).value.alt) == Lower(Exec(s, alts2).value.alt)
  {
    ExecLeftmostLongest(s, alts1);
    ExecLeftmostLongest(s, alts2);
    NoneBetweenSameSet(s, alts1, alts2, 0, |s| + 1);
    var r1, r2 := Exec(s, alts1), Exec(s, alts2);
    if r1.Some? && r2.Some? {
      var m1, m2 := r1.value, r2.value;
      NoneBetweenSameSet(s, alts1, alts2, 0, m1.at);
      NoneBetweenSameSet(s, alts1, alts2, 0, m2.at);
      if m1.at < m2.at {
        InAlts(s, alts2, m1.alt, m1.at);
      } else if m2.at < m1.at {
        InAlts(s, alts1, m2.alt, m2.at);
      }
      assert m1.at == m2.at;
      SameLengthSameText(s, m1.alt, m2.alt, m1.at);
    }
  }

  lemma NoneBetweenSameSet(s: string, alts1: seq<string>, alts2: seq<string>, from: int, upto: int)
    requires forall a :: a in alts1 <==> a in alts2
    ensures NoneBetween(s, alts1, from, upto) <==> NoneBetween(s, alts2, from, upto)
  {
    if NoneBetween(s, alts1, from, upto) {
      forall q, i | from <= q < upto && 0 <= i < |alts2|
        ensures !MatchesAt(s, alts2[i], q)
      {
        InAlts(s, alts1, alts2[i], q);
      }
    }
    if NoneBetween(s, alts2, from, upto) {
      forall q, i | from <= q < upto && 0 <= i < |alts1|
        ensures !MatchesAt(s, alts1[i], q)
      {
        InAlts(s, alts2, alts1[i], q);
      }
    }
  }

  lemma InAlts(s: string, alts: seq<string>, a: string, q: int)
    requires a in alts
    ensures exists i :: 0 <= i < |alts| && alts[i] == a && (MatchesAt(s, alts[i], q) <==> MatchesAt(s, a, q))
  {
    var i :| 0 <= i < |alts| && alts[i] == a;
  }
}
