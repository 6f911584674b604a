/**
 * The handful of Kotlin string operations the importer and the renderer use:
 * `startsWith`, `indexOf`, `substring`, `replace` (all occurrences), `joinToString`
 * and, for stating properties of rendered text, `split` on one character.
 */
module Strings {
  import opened Wrappers

  /** The JVM exception `substring` throws for an index outside the string. */
  datatype Exception = StringIndexOutOfBounds(index: int)

  predicate StartsWith(s: string, prefix: string) {
    |prefix| <= |s| && s[..|prefix|] == prefix
  }

  /** `pat` occurs in `s` at position `i`. */
  predicate OccursAt(s: string, pat: string, i: int) {
    0 <= i && i + |pat| <= |s| && s[i..i + |pat|] == pat
  }

  ghost predicate Contains(s: string, pat: string) {
    exists i :: OccursAt(s, pat, i)
  }

  /** `s.indexOf(c)`: the first position of `c`, or -1. */
  function IndexOf(s: string, c: char): (r: int)
    ensures r == -1 <==> c !in s
    ensures r != -1 ==> 0 <= r < |s| && s[r] == c && c !in s[..r]
  {
    if |s| == 0 then -1
    else if s[0] == c then 0
    else
      var k := IndexOf(s[1..], c);
      if k == -1 then -1 else k + 1
  }

  /** `s.substring(start)`, which throws unless `0 <= start <= s.length`. */
  function Substring(s: string, start: int): (r: Result<string, Exception>)
    ensures r.Failure? <==> start < 0 || |s| < start
    ensures r.Failure? ==> r.error == StringIndexOutOfBounds(start)
    ensures r.Success? ==> |r.value| == |s| - start && s == s[..start] + r.value
  {
    if 0 <= start <= |s| then Success(s[start..]) else Failure(StringIndexOutOfBounds(start))
  }

  /**
   * `s.replace(pat, rep)`: every occurrence of `pat`, scanning left to right
   * without overlap, is replaced by `rep`.
   */
  function ReplaceAll(s: string, pat: string, rep: string): string
    requires pat != []
    decreases |s|
  {
    if |s| < |pat| then s
    else if s[..|pat|] == pat then rep + ReplaceAll(s[|pat|..], pat, rep)
    else [s[0]] + ReplaceAll(s[1..], pat, rep)
  }

  /** Replacing a pattern that does not occur changes nothing. */
  lemma {:induction false} ReplaceAllAbsent(s: string, pat: string, rep: string)
    requires pat != [] && !Contains(s, pat)
    ensures ReplaceAll(s, pat, rep) == s
    decreases |s|
  {
    if |s| >= |pat| {
      assert !OccursAt(s, pat, 0);
      forall i | OccursAt(s[1..], pat, i) ensures false {
        assert s[1..][i..i + |pat|] == s[i + 1..i + 1 + |pat|];
        assert OccursAt(s, pat, i + 1);
      }
      ReplaceAllAbsent(s[1..], pat, rep);
    }
  }

  /**
   * A prefix of the result in which no replacement has started (it holds no
   * first character of `rep`) is a prefix of the input, unchanged.
   */
  lemma {:induction false} ReplaceAllKeepsPrefix(s: string, pat: string, rep: string, m: nat)
    requires pat != [] && rep != []
    requires m <= |ReplaceAll(s, pat, rep)|
    requires rep[0] !in ReplaceAll(s, pat, rep)[..m]
    ensures m <= |s| && ReplaceAll(s, pat, rep)[..m] == s[..m]
    decreases |s|
  {
    var r := ReplaceAll(s, pat, rep);
    if m == 0 || |s| < |pat| {
    } else if s[..|pat|] == pat {
      HeadInPrefix(r, m);
      assert false;
    } else {
      var r' := ReplaceAll(s[1..], pat, rep);
      assert r == [s[0]] + r';
      assert r'[..m - 1] == r[1..m];
      ReplaceAllKeepsPrefix(s[1..], pat, rep, m - 1);
      assert r[..m] == [s[0]] + r'[..m - 1];
    }
  }

  /**
   * When no character of a non-empty `rep` occurs in `pat`, replacing `pat` by
   * `rep` leaves no occurrence of `pat` behind: the replacement cannot create one.
   */
  lemma {:induction false} ReplaceAllRemoves(s: string, pat: string, rep: string)
    requires pat != [] && rep != []
    requires forall c :: c in rep ==> c !in pat
    ensures !Contains(ReplaceAll(s, pat, rep), pat)
    decreases |s|
  {
    var r := ReplaceAll(s, pat, rep);
    if |s| < |pat| {
      assert forall i :: !OccursAt(r, pat, i);
    } else if s[..|pat|] == pat {
      var r' := ReplaceAll(s[|pat|..], pat, rep);
      ReplaceAllRemoves(s[|pat|..], pat, rep);
      forall i ensures !OccursAt(r, pat, i) {
        if 0 <= i < |rep| && i + |pat| <= |r| {
          assert r[i..i + |pat|][0] == rep[i] && rep[i] in rep;
        } else if |rep| <= i && i + |pat| <= |r| {
          assert r[i..i + |pat|] == r'[i - |rep|..i - |rep| + |pat|];
          assert !OccursAt(r', pat, i - |rep|);
        }
      }
    } else {
      var r' := ReplaceAll(s[1..], pat, rep);
      ReplaceAllRemoves(s[1..], pat, rep);
      forall i ensures !OccursAt(r, pat, i) {
        if i == 0 && OccursAt(r, pat, 0) {
          var m := |pat| - 1;
          assert r'[..m] == pat[1..];
          assert rep[0] in rep;
          ReplaceAllKeepsPrefix(s[1..], pat, rep, m);
          assert false;
        } else if 1 <= i && i + |pat| <= |r| {
          assert r[i..i + |pat|] == r'[i - 1..i - 1 + |pat|];
          assert !OccursAt(r', pat, i - 1);
        }
      }
    }
  }

  /** An occurrence of a pattern contains an occurrence of each of its infixes. */
  lemma ContainsInfix(s: string, outer: string, k: nat, inner: string)
    requires k + |inner| <= |outer| && outer[k..k + |inner|] == inner
    requires Contains(s, outer)
    ensures Contains(s, inner)
  {
    var i :| OccursAt(s, outer, i);
    forall j | 0 <= j < |inner|
      ensures s[i + k + j] == inner[j]
    {
      assert s[i..i + |outer|][k + j] == outer[k + j];
      assert outer[k..k + |inner|][j] == outer[k + j];
    }
    assert s[i + k..i + k + |inner|] == inner;
    assert OccursAt(s, inner, i + k);
  }

  /** The first character of a non-empty string is in each of its non-empty prefixes. */
  lemma HeadInPrefix(t: string, m: nat)
    requires 0 < m <= |t|
    ensures t[0] in t[..m]
  {
    assert t[..m][0] == t[0];
  }

  /** `s` with every `c` deleted. */
  function RemoveChar(s: string, c: char): (r: string)
    ensures c !in r
    ensures forall d :: d != c ==> (d in r <==> d in s)
    ensures c !in s ==> r == s
    ensures |r| <= |s|
  {
    if |s| == 0 then ""
    else if s[0] == c then RemoveChar(s[1..], c)
    else [s[0]] + RemoveChar(s[1..], c)
  }

  /** Replacing a one-character pattern by nothing deletes that character. */
  lemma {:induction false} ReplaceCharByNothing(s: string, c: char)
    ensures ReplaceAll(s, [c], "") == RemoveChar(s, c)
    decreases |s|
  {
    if |s| > 0 {
      ReplaceCharByNothing(s[1..], c);
    }
  }

  /** `xs.joinToString(sep)`. */
  function Join(xs: seq<string>, sep: string): string {
    if |xs| == 0 then ""
    else if |xs| == 1 then xs[0]
    else xs[0] + sep + Join(xs[1..], sep)
  }

  /** A join with a non-empty separator is empty only for no element or one empty element. */
  lemma JoinIsEmpty(xs: seq<string>, sep: string)
    requires sep != ""
    ensures Join(xs, sep) == "" <==> xs == [] || xs == [""]
  {
    if |xs| > 1 {
      assert |Join(xs, sep)| >= |sep|;
    }
  }

  /** A join holds no `c` when neither the separator nor any element does. */
  lemma {:induction false} JoinAvoids(xs: seq<string>, sep: string, c: char)
    requires c !in sep
    requires forall i :: 0 <= i < |xs| ==> c !in xs[i]
    ensures c !in Join(xs, sep)
  {
    if |xs| > 1 {
      JoinAvoids(xs[1..], sep, c);
    }
  }

  /** Joining two non-empty lists: the parts meet at one separator. */
  lemma {:induction false} JoinAppend(xs: seq<string>, ys: seq<string>, sep: string)
    requires xs != [] && ys != []
    ensures Join(xs + ys, sep) == Join(xs, sep) + sep + Join(ys, sep)
  {
    if |xs| == 1 {
      assert (xs + ys)[1..] == ys;
    } else {
      assert (xs + ys)[1..] == xs[1..] + ys;
      JoinAppend(xs[1..], ys, sep);
    }
  }

  /** `s.split(c)`: the pieces between the occurrences of `c`; never an empty list. */
  function Split(s: string, c: char): (r: seq<string>)
    ensures |r| >= 1
  {
    if |s| == 0 then [""]
    else if s[0] == c then [""] + Split(s[1..], c)
    else
      var rest := Split(s[1..], c);
      [[s[0]] + rest[0]] + rest[1..]
  }

  /** Text free of `c` before the rest just extends the first piece. */
  lemma {:induction false} SplitAfterPlain(x: string, rest: string, c: char)
    requires c !in x
    ensures Split(x + rest, c) == [x + Split(rest, c)[0]] + Split(rest, c)[1..]
  {
    var pieces := Split(rest, c);
    if |x| == 0 {
      assert x + rest == rest && x + pieces[0] == pieces[0];
      assert [pieces[0]] + pieces[1..] == pieces;
    } else {
      assert (x + rest)[1..] == x[1..] + rest;
      SplitAfterPlain(x[1..], rest, c);
      assert [x[0]] + (x[1..] + Split(rest, c)[0]) == x + Split(rest, c)[0];
    }
  }

  /** Splitting undoes joining with that one character, when no element holds it. */
  lemma {:induction false} SplitJoin(xs: seq<string>, c: char)
    requires xs != []
    requires forall i :: 0 <= i < |xs| ==> c !in xs[i]
    ensures Split(Join(xs, [c]), c) == xs
  {
    if |xs| == 1 {
      SplitAfterPlain(xs[0], "", c);
      assert xs[0] + "" == xs[0];
    } else {
      SplitJoin(xs[1..], c);
      var tail := [c] + Join(xs[1..], [c]);
      assert Join(xs, [c]) == xs[0] + tail;
      SplitAfterPlain(xs[0], tail, c);
      assert tail[1..] == Join(xs[1..], [c]);
      assert xs[0] + "" == xs[0];
    }
  }
}
