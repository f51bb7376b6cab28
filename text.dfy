/** The JavaScript string operations the itinerary code relies on, over
    `seq<char>`: whitespace as ECMAScript defines it (the set that `\s` in a
    regular expression matches and that `String.prototype.trim` removes),
    `trim`, `split` and `join` on a one-character separator, `includes`,
    `startsWith`, `replace` of the first occurrence of a string, and ASCII
    lower-casing. */
module Text {

  /** ECMAScript WhiteSpace and LineTerminator code points. */
  predicate IsWs(c: char)
  {
    c == '\t' || c == '\n' || c == '\U{B}' || c == '\U{C}' || c == '\r' || c == ' '
    || c == '\U{A0}' || c == '\U{1680}' || ('\U{2000}' <= c <= '\U{200A}')
    || c == '\U{2028}' || c == '\U{2029}' || c == '\U{202F}' || c == '\U{205F}'
    || c == '\U{3000}' || c == '\U{FEFF}'
  }

  predicate AllWs(s: string)
  {
    forall i :: 0 <= i < |s| ==> IsWs(s[i])
  }

  /** `s.trimStart()` */
  function TrimStart(s: string): (r: string)
    ensures |r| <= |s| && r == s[|s| - |r|..]
    ensures r != [] ==> !IsWs(r[0])
  {
    if s != [] && IsWs(s[0]) then TrimStart(s[1..]) else s
  }

  /** `s.trimEnd()` */
  function TrimEnd(s: string): (r: string)
    ensures |r| <= |s| && r == s[..|r|]
    ensures r != [] ==> !IsWs(r[|r| - 1])
  {
    if s != [] && IsWs(s[|s| - 1]) then TrimEnd(s[..|s| - 1]) else s
  }

  /** What `trimStart` removes is whitespace. */
  lemma {:induction false} TrimStartDropsWs(s: string)
    ensures AllWs(s[..|s| - |TrimStart(s)|])
  {
    if s != [] && IsWs(s[0]) {
      TrimStartDropsWs(s[1..]);
      var n := |s| - |TrimStart(s)|;
      forall i | 0 <= i < n ensures IsWs(s[i]) {
        if i > 0 {
          assert s[1..][..n - 1][i - 1] == s[i];
        }
      }
    }
  }

  /** What `trimEnd` removes is whitespace. */
  lemma {:induction false} TrimEndDropsWs(s: string)
    ensures AllWs(s[|TrimEnd(s)|..])
  {
    if s != [] && IsWs(s[|s| - 1]) {
      var p := s[..|s| - 1];
      TrimEndDropsWs(p);
      var m := |TrimEnd(s)|;
      forall i | m <= i < |s| ensures IsWs(s[i]) {
        if i < |s| - 1 {
          assert p[m..][i - m] == s[i];
        }
      }
    }
  }

  /** `s.trim()`: a non-empty result starts and ends with a non-whitespace
      character. */
  function Trim(s: string): (r: string)
    ensures r != [] ==> !IsWs(r[0]) && !IsWs(r[|r| - 1])
  {
    var t := TrimStart(s);
    var r := TrimEnd(t);
    assert r != [] ==> r[0] == t[0];
    r
  }

  /** `trim` gives the empty string exactly when the input is all whitespace. */
  lemma {:induction false} TrimBlank(s: string)
    ensures Trim(s) == [] <==> AllWs(s)
  {
    var t := TrimStart(s);
    var a := |s| - |t|;
    TrimStartDropsWs(s);
    if Trim(s) == [] {
      TrimEndDropsWs(t);
      assert AllWs(t) by { assert t[0..] == t; }
      assert a == |s|;
      forall i | 0 <= i < |s| ensures IsWs(s[i]) {
        assert s[..a][i] == s[i];
      }
    } else {
      assert t != [];
      assert t[0] == s[a];
    }
  }

  /** `trim` returns a slice of its input, starting where `trimStart` stops. */
  lemma {:induction false} TrimIsSlice(s: string)
    ensures |s| - |TrimStart(s)| + |Trim(s)| <= |s|
    ensures Trim(s) == s[|s| - |TrimStart(s)|..|s| - |TrimStart(s)| + |Trim(s)|]
  {
    PrefixOfSuffix(s, TrimStart(s), Trim(s));
  }

  /** A prefix of a suffix is a slice. */
  lemma PrefixOfSuffix(s: string, t: string, r: string)
    requires |t| <= |s| && t == s[|s| - |t|..]
    requires |r| <= |t| && r == t[..|r|]
    ensures r == s[|s| - |t|..|s| - |t| + |r|]
  {
  }

  /** What `trim` removes on either side of that slice is whitespace. */
  lemma {:induction false} TrimRemovesOnlyWs(s: string)
    ensures AllWs(s[..|s| - |TrimStart(s)|])
    ensures AllWs(s[|s| - |TrimStart(s)| + |Trim(s)|..])
  {
    var t := TrimStart(s);
    var r := TrimEnd(t);
    assert Trim(s) == r;
    var a := |s| - |t|;
    TrimStartDropsWs(s);
    TrimEndDropsWs(t);
    assert s[a + |r|..] == t[|r|..];
  }

  /** `s.startsWith(p)` */
  predicate StartsWith(s: string, p: string)
  {
    |p| <= |s| && s[..|p|] == p
  }

  /** `needle` occurs in `hay` starting at index `i`. */
  predicate OccursAt(hay: string, needle: string, i: nat)
  {
    i + |needle| <= |hay| && hay[i..i + |needle|] == needle
  }

  /** `hay.indexOf(needle, from)`: the first index at or after `from` where
      `needle` occurs, or -1. */
  function FindFrom(hay: string, needle: string, from: nat): (r: int)
    requires from <= |hay|
    ensures r == -1 || (from <= r <= |hay| && OccursAt(hay, needle, r))
    ensures forall k :: from <= k < (if r == -1 then |hay| + 1 else r) ==> !OccursAt(hay, needle, k)
    decreases |hay| - from
  {
    if OccursAt(hay, needle, from) then from
    else if from == |hay| then -1
    else FindFrom(hay, needle, from + 1)
  }

  /** `hay.includes(needle)` */
  predicate Contains(hay: string, needle: string)
  {
    FindFrom(hay, needle, 0) >= 0
  }

  /** `includes` holds exactly when the needle occurs somewhere. */
  lemma ContainsIff(hay: string, needle: string)
    ensures Contains(hay, needle) <==> exists i :: 0 <= i <= |hay| && OccursAt(hay, needle, i)
  {
  }

  /** A string occurs in any concatenation at the place where it was put. */
  lemma ContainsMiddle(a: string, m: string, b: string)
    ensures Contains(a + m + b, m)
  {
    var s := a + m + b;
    assert s[|a|..|a| + |m|] == m;
    assert OccursAt(s, m, |a|);
    ContainsIff(s, m);
  }

  /** `s.replace(pattern, replacement)` with a string pattern: only the first
      occurrence is replaced. */
  function ReplaceFirst(s: string, pattern: string, replacement: string): (r: string)
  {
    var i := FindFrom(s, pattern, 0);
    if i < 0 then s else s[..i] + replacement + s[i + |pattern|..]
  }

  /** Replacing a prefix removes exactly that prefix. */
  lemma ReplacePrefix(s: string, pattern: string)
    requires StartsWith(s, pattern)
    ensures pattern + ReplaceFirst(s, pattern, "") == s
  {
    assert OccursAt(s, pattern, 0);
    assert s[..0] + "" + s[|pattern|..] == s[|pattern|..];
  }

  /** `s.indexOf(c)` for a character that occurs in `s`. */
  function IndexOf(s: string, c: char): (k: nat)
    requires c in s
    ensures k < |s| && s[k] == c && c !in s[..k]
  {
    if s[0] == c then 0
    else
      assert c in s[1..] by {
        var j :| 0 <= j < |s| && s[j] == c;
        assert s[1..][j - 1] == c;
      }
      var k := IndexOf(s[1..], c);
      assert s[..k + 1] == [s[0]] + s[1..][..k];
      k + 1
  }

  /** `s.split(sep)` for a one-character separator. */
  function SplitOn(s: string, sep: char): (pieces: seq<string>)
    ensures |pieces| >= 1
    ensures forall i :: 0 <= i < |pieces| ==> sep !in pieces[i]
    decreases |s|
  {
    if sep !in s then [s]
    else
      var k := IndexOf(s, sep);
      [s[..k]] + SplitOn(s[k + 1..], sep)
  }

  /** `parts.join(sep)` */
  function Join(parts: seq<string>, sep: string): string
  {
    if parts == [] then ""
    else if |parts| == 1 then parts[0]
    else parts[0] + sep + Join(parts[1..], sep)
  }

  /** Joining the pieces of a split with the separator gives the input back. */
  lemma {:induction false} JoinSplit(s: string, sep: char)
    ensures Join(SplitOn(s, sep), [sep]) == s
    decreases |s|
  {
    if sep in s {
      var k := IndexOf(s, sep);
      var rest := SplitOn(s[k + 1..], sep);
      assert SplitOn(s, sep) == [s[..k]] + rest;
      JoinSplit(s[k + 1..], sep);
      JoinCons(s[..k], rest, [sep]);
      Reassemble(s, k);
    }
  }

  /** Joining a list with at least two elements puts the separator after the first. */
  lemma {:induction false} JoinCons(p: string, rest: seq<string>, sep: string)
    requires |rest| >= 1
    ensures Join([p] + rest, sep) == p + sep + Join(rest, sep)
  {
    assert ([p] + rest)[1..] == rest;
  }

  lemma {:induction false} Reassemble(s: string, k: nat)
    requires k < |s|
    ensures s[..k] + [s[k]] + s[k + 1..] == s
  {
  }

  /** Splitting a join of separator-free pieces gives the pieces back. */
  lemma {:induction false} SplitJoin(parts: seq<string>, sep: char)
    requires |parts| >= 1
    requires forall i :: 0 <= i < |parts| ==> sep !in parts[i]
    ensures SplitOn(Join(parts, [sep]), sep) == parts
  {
    if |parts| > 1 {
      var s := Join(parts, [sep]);
      var tail := Join(parts[1..], [sep]);
      assert s == parts[0] + [sep] + tail;
      assert sep in s by { assert s[|parts[0]|] == sep; }
      var k := IndexOf(s, sep);
      assert k == |parts[0]|;
      assert s[..k] == parts[0];
      assert s[k + 1..] == tail;
      SplitJoin(parts[1..], sep);
    }
  }

  /** Every element of a list is a substring of its join. */
  lemma {:induction false} JoinContainsEach(parts: seq<string>, sep: string, i: nat)
    requires i < |parts|
    ensures Contains(Join(parts, sep), parts[i])
  {
    if |parts| == 1 {
      ContainsMiddle("", parts[0], "");
      assert "" + parts[0] + "" == parts[0];
    } else if i == 0 {
      ContainsMiddle("", parts[0], sep + Join(parts[1..], sep));
      assert "" + parts[0] + (sep + Join(parts[1..], sep)) == Join(parts, sep);
    } else {
      JoinContainsEach(parts[1..], sep, i - 1);
      assert parts[1..][i - 1] == parts[i];
      var t := Join(parts[1..], sep);
      assert Join(parts, sep) == (parts[0] + sep) + t;
      ContainsInSuffix(parts[0] + sep, t, parts[i]);
    }
  }

  /** What a string contains, any extension of it on the left contains. */
  lemma {:induction false} ContainsInSuffix(a: string, t: string, p: string)
    requires Contains(t, p)
    ensures Contains(a + t, p)
  {
    ContainsIff(t, p);
    var h :| 0 <= h <= |t| && OccursAt(t, p, h);
    var s := a + t;
    assert s[|a| + h..|a| + h + |p|] == t[h..h + |p|];
    assert OccursAt(s, p, |a| + h);
    ContainsIff(s, p);
  }

  /** ASCII case folding (`toLowerCase` restricted to A-Z). */
  function LowerChar(c: char): char
  {
    if 'A' <= c <= 'Z' then (c as int + 32) as char else c
  }

  function Lower(s: string): (r: string)
    ensures |r| == |s|
    ensures forall i :: 0 <= i < |s| ==> r[i] == LowerChar(s[i])
  {
    seq(|s|, i requires 0 <= i < |s| => LowerChar(s[i]))
  }
}
