/**
 * The JavaScript string operations the application relies on, over ASCII:
 * `trim`, `toLowerCase`, `split(/\s+/)`, `join(' ')`, `includes`, and the
 * decimal rendering of a number inside a template literal.
 */
module Strings {

  /** The ASCII characters that `\s` matches and `trim` removes. */
  predicate IsSpace(c: char) {
    c == ' ' || c == '\t' || c == '\n' || c == '\r' || c as int == 11 || c as int == 12
  }

  predicate HasNoSpace(s: string) {
    forall i :: 0 <= i < |s| ==> !IsSpace(s[i])
  }

  predicate IsUpper(c: char) {
    'A' <= c <= 'Z'
  }

  predicate HasNoUpper(s: string) {
    forall i :: 0 <= i < |s| ==> !IsUpper(s[i])
  }

  /** `String.prototype.trimStart`: drops the leading run of white space. */
  function TrimStart(s: string): (r: string)
    ensures |r| <= |s| && r == s[|s| - |r|..]
    ensures r == [] || !IsSpace(r[0])
    ensures forall i :: 0 <= i < |s| - |r| ==> IsSpace(s[i])
    ensures s != [] && IsSpace(s[0]) ==> |r| < |s|
  {
    if s != [] && IsSpace(s[0]) then TrimStart(s[1..]) else s
  }

  /** `String.prototype.trimEnd`: drops the trailing run of white space. */
  function TrimEnd(s: string): (r: string)
    ensures |r| <= |s| && r == s[..|r|]
    ensures r == [] || !IsSpace(r[|r| - 1])
    ensures forall i :: |r| <= i < |s| ==> IsSpace(s[i])
  {
    if s != [] && IsSpace(s[|s| - 1]) then TrimEnd(s[..|s| - 1]) else s
  }

  /** `String.prototype.trim`. */
  function Trim(s: string): (r: string)
    ensures |r| <= |s|
    ensures r == [] || (!IsSpace(r[0]) && !IsSpace(r[|r| - 1]))
  {
    TrimEnd(TrimStart(s))
  }

  /** A string that neither starts nor ends with white space is its own trim. */
  lemma TrimOfTrimmed(s: string)
    requires s == [] || (!IsSpace(s[0]) && !IsSpace(s[|s| - 1]))
    ensures Trim(s) == s
  {
  }

  lemma TrimIdempotent(s: string)
    ensures Trim(Trim(s)) == Trim(s)
  {
    TrimOfTrimmed(Trim(s));
  }

  function LowerChar(c: char): (r: char)
    ensures !IsUpper(r)
    ensures !IsUpper(c) ==> r == c
  {
    if IsUpper(c) then (c as int + 32) as char else c
  }

  /** `String.prototype.toLowerCase` on ASCII. */
  function Lower(s: string): (r: string)
    ensures |r| == |s|
    ensures forall i :: 0 <= i < |s| ==> r[i] == LowerChar(s[i])
    ensures HasNoUpper(r)
  {
    seq(|s|, i requires 0 <= i < |s| => LowerChar(s[i]))
  }

  lemma LowerOfLower(s: string)
    requires HasNoUpper(s)
    ensures Lower(s) == s
  {
  }

  lemma LowerKeepsSpaces(s: string)
    ensures forall i :: 0 <= i < |s| ==> (IsSpace(Lower(s)[i]) <==> IsSpace(s[i]))
  {
  }

  /**
   * `s.split(/\s+/)`: the pieces between maximal runs of white space, with an
   * empty first (last) piece when `s` starts (ends) with white space.
   */
  function SplitOnSpace(s: string): (r: seq<string>)
    ensures |r| >= 1
  {
    SplitFrom(s, "")
  }

  /** Splitting `s` when the piece being built so far is `cur`. */
  function SplitFrom(s: string, cur: string): (r: seq<string>)
    ensures |r| >= 1
    decreases |s|
  {
    if s == [] then [cur]
    else if IsSpace(s[0]) then [cur] + SplitFrom(TrimStart(s), "")
    else SplitFrom(s[1..], cur + [s[0]])
  }

  /** `ss.filter(t => t.length > 0)`. */
  function NonEmpty(ss: seq<string>): (r: seq<string>)
    ensures forall t :: t in r ==> t in ss && t != []
    ensures forall t :: t in ss && t != [] ==> t in r
  {
    if ss == [] then []
    else if ss[0] == [] then NonEmpty(ss[1..])
    else [ss[0]] + NonEmpty(ss[1..])
  }

  /** `ss.join(' ')`. */
  function JoinSpace(ss: seq<string>): string {
    if |ss| == 0 then ""
    else if |ss| == 1 then ss[0]
    else ss[0] + " " + JoinSpace(ss[1..])
  }

  /** A word (a run of non-space characters) simply extends the current piece. */
  lemma {:induction false} SplitFromWord(w: string, rest: string, cur: string)
    requires HasNoSpace(w)
    ensures SplitFrom(w + rest, cur) == SplitFrom(rest, cur + w)
    decreases |w|
  {
    if w == [] {
      assert w + rest == rest;
      assert cur + w == cur;
    } else {
      assert (w + rest)[0] == w[0];
      assert (w + rest)[1..] == w[1..] + rest;
      SplitFromWord(w[1..], rest, cur + [w[0]]);
      assert cur + [w[0]] + w[1..] == cur + w;
    }
  }

  lemma {:induction false} JoinSpaceEnds(ss: seq<string>)
    requires |ss| > 0
    requires forall i :: 0 <= i < |ss| ==> ss[i] != []
    ensures |JoinSpace(ss)| > 0
    ensures JoinSpace(ss)[0] == ss[0][0]
    ensures JoinSpace(ss)[|JoinSpace(ss)| - 1] == ss[|ss| - 1][|ss[|ss| - 1]| - 1]
    decreases |ss|
  {
    if |ss| > 1 {
      JoinSpaceEnds(ss[1..]);
    }
  }

  lemma {:induction false} JoinSpaceNoUpper(ss: seq<string>)
    requires forall i :: 0 <= i < |ss| ==> HasNoUpper(ss[i])
    ensures HasNoUpper(JoinSpace(ss))
    decreases |ss|
  {
    if |ss| > 1 {
      JoinSpaceNoUpper(ss[1..]);
      var j := JoinSpace(ss[1..]);
      assert JoinSpace(ss) == ss[0] + " " + j;
      forall i | 0 <= i < |JoinSpace(ss)| ensures !IsUpper(JoinSpace(ss)[i]) {
        if i < |ss[0]| {
          assert JoinSpace(ss)[i] == ss[0][i];
        } else if i > |ss[0]| {
          assert JoinSpace(ss)[i] == j[i - |ss[0]| - 1];
        }
      }
    }
  }

  /** Splitting words joined by single spaces gives the words back. */
  lemma {:induction false} SplitJoin(ss: seq<string>)
    requires |ss| > 0
    requires forall i :: 0 <= i < |ss| ==> ss[i] != [] && HasNoSpace(ss[i])
    ensures SplitOnSpace(JoinSpace(ss)) == ss
    decreases |ss|
  {
    if |ss| == 1 {
      SplitFromWord(ss[0], "", "");
      assert ss[0] + "" == ss[0];
      assert "" + ss[0] == ss[0];
    } else {
      var tail := JoinSpace(ss[1..]);
      JoinSpaceEnds(ss[1..]);
      assert JoinSpace(ss) == ss[0] + (" " + tail);
      SplitFromWord(ss[0], " " + tail, "");
      assert "" + ss[0] == ss[0];
      assert TrimStart(" " + tail) == TrimStart(tail);
      assert TrimStart(tail) == tail;
      SplitJoin(ss[1..]);
      assert ss == [ss[0]] + ss[1..];
    }
  }

  lemma {:induction false} NonEmptyOfNonEmpty(ss: seq<string>)
    requires forall i :: 0 <= i < |ss| ==> ss[i] != []
    ensures NonEmpty(ss) == ss
    decreases |ss|
  {
    if ss != [] {
      NonEmptyOfNonEmpty(ss[1..]);
      assert ss == [ss[0]] + ss[1..];
    }
  }

  /** Dropping the empty pieces of space-free, lower-case pieces leaves non-empty, space-free, lower-case pieces. */
  lemma NonEmptyClean(ss: seq<string>)
    requires forall i :: 0 <= i < |ss| ==> HasNoSpace(ss[i]) && HasNoUpper(ss[i])
    ensures forall i :: 0 <= i < |NonEmpty(ss)| ==> NonEmpty(ss)[i] != [] && HasNoSpace(NonEmpty(ss)[i]) && HasNoUpper(NonEmpty(ss)[i])
  {
    var r := NonEmpty(ss);
    forall i | 0 <= i < |r| ensures r[i] != [] && HasNoSpace(r[i]) && HasNoUpper(r[i]) {
      assert r[i] in r;
      var m :| 0 <= m < |ss| && ss[m] == r[i];
    }
  }

  /** The pieces of a split hold no white space, and no upper-case letter when the input holds none. */
  lemma {:induction false} SplitFromPieces(s: string, cur: string)
    requires HasNoSpace(cur) && HasNoUpper(cur) && HasNoUpper(s)
    ensures forall i :: 0 <= i < |SplitFrom(s, cur)| ==> HasNoSpace(SplitFrom(s, cur)[i]) && HasNoUpper(SplitFrom(s, cur)[i])
    decreases |s|
  {
    if s == [] {
    } else if IsSpace(s[0]) {
      var rest := TrimStart(s);
      assert HasNoUpper(rest) by {
        forall i | 0 <= i < |rest| ensures !IsUpper(rest[i]) {
          assert rest[i] == s[|s| - |rest| + i];
        }
      }
      SplitFromPieces(rest, "");
      var r := SplitFrom(s, cur);
      assert r == [cur] + SplitFrom(rest, "");
      forall i | 0 <= i < |r| ensures HasNoSpace(r[i]) && HasNoUpper(r[i]) {
        if i > 0 {
          assert r[i] == SplitFrom(rest, "")[i - 1];
        }
      }
    } else {
      var next := cur + [s[0]];
      assert HasNoSpace(next) && HasNoUpper(next) by {
        forall i | 0 <= i < |next| ensures !IsSpace(next[i]) && !IsUpper(next[i]) {
          if i < |cur| {
            assert next[i] == cur[i];
          }
        }
      }
      assert HasNoUpper(s[1..]) by {
        forall i | 0 <= i < |s| - 1 ensures !IsUpper(s[1..][i]) {
          assert s[1..][i] == s[i + 1];
        }
      }
      SplitFromPieces(s[1..], next);
    }
  }

  /** `s.startsWith(p)`. */
  predicate StartsWith(s: string, p: string) {
    |p| <= |s| && s[..|p|] == p
  }

  /** `s.includes(t)`: `t` occurs in `s` at some position. */
  predicate Contains(s: string, t: string)
    decreases |s|
  {
    StartsWith(s, t) || (s != [] && Contains(s[1..], t))
  }

  /** The empty string occurs in every string, as `''.includes` and `s.includes('')` have it. */
  lemma ContainsEmpty(s: string)
    ensures Contains(s, "")
  {
    assert s[..0] == "";
  }

  /** `Contains` agrees with the positional definition of a substring. */
  lemma {:induction false} ContainsAt(s: string, t: string, k: nat)
    requires k + |t| <= |s| && s[k..k + |t|] == t
    ensures Contains(s, t)
    decreases k
  {
    if k > 0 {
      assert s[1..][k - 1..k - 1 + |t|] == s[k..k + |t|];
      ContainsAt(s[1..], t, k - 1);
    }
  }

  function DigitChar(d: nat): (c: char)
    requires d < 10
    ensures '0' <= c <= '9'
  {
    ('0' as int + d) as char
  }

  /** The decimal digits of `n`, as a template literal `${n}` renders a natural number. */
  function Decimal(n: nat): (r: string)
    ensures 1 <= |r|
    ensures forall i :: 0 <= i < |r| ==> '0' <= r[i] <= '9'
    ensures n < 10 <==> |r| == 1
  {
    if n < 10 then [DigitChar(n)] else Decimal(n / 10) + [DigitChar(n % 10)]
  }

  /** Reads back a string of decimal digits. */
  function ParseDecimal(s: string): nat
    requires forall i :: 0 <= i < |s| ==> '0' <= s[i] <= '9'
  {
    if s == [] then 0 else ParseDecimal(s[..|s| - 1]) * 10 + (s[|s| - 1] as int - '0' as int)
  }

  /** Rendering a number and reading it back gives the number: `Decimal` is injective. */
  lemma {:induction false} DecimalRoundTrip(n: nat)
    ensures ParseDecimal(Decimal(n)) == n
  {
    if n >= 10 {
      var d := Decimal(n);
      assert d[..|d| - 1] == Decimal(n / 10);
      DecimalRoundTrip(n / 10);
    }
  }

  function Pow10(k: nat): (r: nat)
    ensures r >= 1
  {
    if k == 0 then 1 else 10 * Pow10(k - 1)
  }

  /** A number below `10^k` has at most `k` digits. */
  lemma {:induction false} DecimalBound(n: nat, k: nat)
    requires 1 <= k && n < Pow10(k)
    ensures |Decimal(n)| <= k
    decreases k
  {
    if n >= 10 {
      assert Pow10(1) == 10;
      assert n / 10 < Pow10(k - 1);
      DecimalBound(n / 10, k - 1);
    }
  }
}
