/**
 * The two PHP string built-ins the form handler applies to the posted URL
 * text: trim() with its default character list, and explode() on a line feed
 * (with implode() as its inverse).
 */
module PhpStrings {

  /** The characters trim() strips when no list is given: space, tab, line
      feed, carriage return, NUL and vertical tab. */
  predicate IsTrimmable(c: char) {
    c == ' ' || c == '\t' || c == '\n' || c == '\r' || c == 0 as char || c == 11 as char
  }

  /** The first position at or after i whose character trim() keeps, or |s|
      when there is none. */
  function FirstKept(s: string, i: nat): (k: nat)
    requires i <= |s|
    ensures i <= k <= |s|
    ensures forall j :: i <= j < k ==> IsTrimmable(s[j])
    ensures k < |s| ==> !IsTrimmable(s[k])
    decreases |s| - i
  {
    if i < |s| && IsTrimmable(s[i]) then FirstKept(s, i + 1) else i
  }

  /** One past the last position below hi, and not below lo, whose character
      trim() keeps, or lo when there is none. */
  function KeptEnd(s: string, lo: nat, hi: nat): (k: nat)
    requires lo <= hi <= |s|
    ensures lo <= k <= hi
    ensures forall j :: k <= j < hi ==> IsTrimmable(s[j])
    ensures k > lo ==> !IsTrimmable(s[k - 1])
    decreases hi
  {
    if lo < hi && IsTrimmable(s[hi - 1]) then KeptEnd(s, lo, hi - 1) else hi
  }

  /** trim(): the part of s between its leading and trailing padding. */
  function Trim(s: string): (r: string)
    ensures |r| <= |s|
  {
    var i := FirstKept(s, 0);
    s[i..KeptEnd(s, i, |s|)]
  }

  /** What trim() leaves is a slice of s with only trimmable characters on
      either side of it. */
  lemma TrimSlice(s: string)
    ensures var i := FirstKept(s, 0);
      i + |Trim(s)| <= |s| && Trim(s) == s[i..i + |Trim(s)|] &&
      (forall j :: 0 <= j < i ==> IsTrimmable(s[j])) &&
      (forall j :: i + |Trim(s)| <= j < |s| ==> IsTrimmable(s[j]))
  {
    var i := FirstKept(s, 0);
    var k := KeptEnd(s, i, |s|);
    assert Trim(s) == s[i..k] && |Trim(s)| == k - i;
  }

  /** What trim() leaves starts and ends with a character it keeps. */
  lemma TrimEnds(s: string)
    ensures var r := Trim(s);
      r != [] ==> !IsTrimmable(r[0]) && !IsTrimmable(r[|r| - 1])
  {
    var i := FirstKept(s, 0);
    var k := KeptEnd(s, i, |s|);
    var r := Trim(s);
    assert r == s[i..k];
    if r != [] {
      assert r[0] == s[i] && r[|r| - 1] == s[k - 1];
    }
  }

  /** trim() leaves nothing exactly when s is all padding. */
  lemma TrimBlank(s: string)
    ensures Trim(s) == [] <==> forall j :: 0 <= j < |s| ==> IsTrimmable(s[j])
  {
    var i := FirstKept(s, 0);
    var k := KeptEnd(s, i, |s|);
    assert Trim(s) == s[i..k] && |Trim(s)| == k - i;
    if k > i {
      assert !IsTrimmable(s[i]);
    }
  }

  /** Trimming a trimmed string changes nothing. */
  lemma TrimIdempotent(s: string)
    ensures Trim(Trim(s)) == Trim(s)
  {
    var t := Trim(s);
    if t != [] {
      TrimEnds(s);
      TrimUnpadded(t);
    }
  }

  /** A string that starts and ends with a character trim() keeps is left
      as it is. */
  lemma TrimUnpadded(a: string)
    requires a != [] && !IsTrimmable(a[0]) && !IsTrimmable(a[|a| - 1])
    ensures Trim(a) == a
  {
    assert FirstKept(a, 0) == 0;
    assert KeptEnd(a, 0, |a|) == |a|;
    assert a[0..|a|] == a;
  }

  /** PHP's empty() on a string: true for "" and for "0". */
  predicate PhpEmpty(s: string): (r: bool)
    ensures r <==> |s| <= 1 && forall i :: 0 <= i < |s| ==> s[i] == '0'
  {
    s == "" || s == "0"
  }

  /** implode("\n", parts). */
  function Implode(parts: seq<string>): string
  {
    if parts == [] then ""
    else if |parts| == 1 then parts[0]
    else parts[0] + "\n" + Implode(parts[1..])
  }

  /** explode("\n", s): the pieces of s between line feeds, in order; there
      is always at least one, and none holds a line feed. */
  function Explode(s: string): (r: seq<string>)
    ensures |r| >= 1
    ensures forall i :: 0 <= i < |r| ==> '\n' !in r[i]
  {
    if s == [] then [""]
    else
      var rest := Explode(s[1..]);
      assert s == [s[0]] + s[1..];
      if s[0] == '\n' then [""] + rest
      else [[s[0]] + rest[0]] + rest[1..]
  }

  /** There is one more piece than there are line feeds. */
  lemma {:induction false} ExplodeCount(s: string)
    ensures |Explode(s)| == multiset(s)['\n'] + 1
    decreases |s|
  {
    if s != [] {
      ExplodeCount(s[1..]);
      assert s == [s[0]] + s[1..];
      assert multiset(s) == multiset{s[0]} + multiset(s[1..]);
    }
  }

  /** Joining the pieces with line feeds gives the exploded text back. */
  lemma {:induction false} ImplodeExplode(s: string)
    ensures Implode(Explode(s)) == s
    decreases |s|
  {
    if s != [] {
      var rest := Explode(s[1..]);
      ImplodeExplode(s[1..]);
      assert s == [s[0]] + s[1..];
      if s[0] == '\n' {
        assert Explode(s) == [""] + rest;
        ImplodeEmptyHead(rest);
      } else {
        assert Explode(s) == [[s[0]] + rest[0]] + rest[1..];
        ImplodeExtendHead(s[0], rest);
      }
    }
  }

  /** An empty first piece contributes only its line feed. */
  lemma ImplodeEmptyHead(rest: seq<string>)
    requires rest != []
    ensures Implode([""] + rest) == "\n" + Implode(rest)
  {
    var r := [""] + rest;
    assert r[0] == "" && r[1..] == rest;
  }

  /** Prefixing the first piece with a character prefixes the join with it. */
  lemma ImplodeExtendHead(c: char, rest: seq<string>)
    requires rest != []
    ensures Implode([[c] + rest[0]] + rest[1..]) == [c] + Implode(rest)
  {
    var r := [[c] + rest[0]] + rest[1..];
    assert r[0] == [c] + rest[0] && r[1..] == rest[1..];
    if |rest| > 1 {
      var tail := Implode(rest[1..]);
      assert ([c] + rest[0]) + "\n" + tail == [c] + (rest[0] + "\n" + tail);
    }
  }

  /** A piece without a line feed runs up to the first line feed. */
  lemma {:induction false} ExplodePrefix(p: string, t: string)
    requires '\n' !in p
    ensures Explode(p + t) == [p + Explode(t)[0]] + Explode(t)[1..]
    decreases |p|
  {
    if p != [] {
      assert (p + t)[1..] == p[1..] + t;
      assert (p + t)[0] == p[0];
      ExplodePrefix(p[1..], t);
      assert [p[0]] + (p[1..] + Explode(t)[0]) == p + Explode(t)[0];
    } else {
      var e := Explode(t);
      assert p + t == t;
      assert p + e[0] == e[0];
      assert [e[0]] + e[1..] == e;
    }
  }

  /** The other round trip: splitting the join of line-feed-free pieces gives
      the pieces back. */
  lemma {:induction false} ExplodeImplode(parts: seq<string>)
    requires |parts| >= 1
    requires forall i :: 0 <= i < |parts| ==> '\n' !in parts[i]
    ensures Explode(Implode(parts)) == parts
    decreases |parts|
  {
    if |parts| == 1 {
      ExplodePrefix(parts[0], "");
      assert parts[0] + "" == parts[0];
    } else {
      var tail := Implode(parts[1..]);
      ExplodeImplode(parts[1..]);
      ExplodePrefix(parts[0], "\n" + tail);
      assert ("\n" + tail)[1..] == tail;
      assert Explode("\n" + tail) == [""] + Explode(tail);
      assert ([""] + Explode(tail))[1..] == Explode(tail);
      assert parts[0] + "" == parts[0];
      assert parts[0] + "\n" + tail == parts[0] + ("\n" + tail);
      assert parts == [parts[0]] + parts[1..];
    }
  }
}
