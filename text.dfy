/** String primitives with the meaning of the Python built-ins the news core
    relies on: `str.lower()`, the substring test `k in t`, `str.split()`,
    `str.strip()` and `<=` between strings. Case mapping and whitespace are
    the ASCII part of Python's Unicode rules. */
module Text {

  /** `c.isspace()` for the ASCII range: blank, tab, line feed, vertical
      tab, form feed, carriage return and the four separators 0x1C-0x1F. */
  predicate IsSpace(c: char) {
    c == ' ' || c == '\t' || c == '\n' || c == '\r' || c == '\U{0B}' || c == '\U{0C}'
    || ('\U{1C}' <= c <= '\U{1F}')
  }

  predicate IsUpper(c: char) { 'A' <= c <= 'Z' }

  function LowerChar(c: char): (d: char)
    ensures !IsUpper(d)
    ensures IsUpper(c) ==> d as int == c as int + 32
    ensures !IsUpper(c) ==> d == c
  {
    if IsUpper(c) then (c as int + 32) as char else c
  }

  /** `s.lower()`: maps every character on its own, keeping the length. */
  function Lower(s: string): (r: string)
    ensures |r| == |s|
    ensures forall i :: 0 <= i < |s| ==> r[i] == LowerChar(s[i])
  {
    seq(|s|, i requires 0 <= i < |s| => LowerChar(s[i]))
  }

  lemma LowerAppend(a: string, b: string)
    ensures Lower(a + b) == Lower(a) + Lower(b)
  {
  }

  predicate StartsWith(s: string, p: string) {
    |p| <= |s| && s[..|p|] == p
  }

  /** Python's `k in t` on strings: `k` occurs as a contiguous block of `t`
      (the empty string occurs everywhere). */
  predicate Occurs(k: string, t: string)
    decreases |t|
  {
    StartsWith(t, k) || (|t| > 0 && Occurs(k, t[1..]))
  }

  /** The reference definition of an occurrence: a position where the
      block starts. */
  predicate OccursAt(k: string, t: string, i: int) {
    0 <= i && i + |k| <= |t| && t[i..i + |k|] == k
  }

  /** The search-based `Occurs` agrees with the positional definition. */
  lemma {:induction false} OccursIff(k: string, t: string)
    ensures Occurs(k, t) <==> exists i :: OccursAt(k, t, i)
    decreases |t|
  {
    if Occurs(k, t) {
      if StartsWith(t, k) {
        assert OccursAt(k, t, 0);
      } else {
        OccursIff(k, t[1..]);
        var i :| OccursAt(k, t[1..], i);
        assert t[1..][i..i + |k|] == t[i + 1..i + 1 + |k|];
        assert OccursAt(k, t, i + 1);
      }
    }
    if exists i :: OccursAt(k, t, i) {
      var i :| OccursAt(k, t, i);
      if i > 0 {
        assert t[1..][i - 1..i - 1 + |k|] == t[i..i + |k|];
        assert OccursAt(k, t[1..], i - 1);
        OccursIff(k, t[1..]);
      } else {
        assert StartsWith(t, k);
      }
    }
  }

  /** A block surrounded by anything occurs in the whole. */
  lemma {:induction false} OccursWitness(k: string, a: string, b: string)
    ensures Occurs(k, a + k + b)
    decreases |a|
  {
    var t := a + k + b;
    if a == [] {
      assert t[..|k|] == k;
    } else {
      assert t[1..] == a[1..] + k + b;
      OccursWitness(k, a[1..], b);
    }
  }

  /** Text appended after an occurrence does not remove it. */
  lemma {:induction false} OccursAppend(k: string, t: string, u: string)
    requires Occurs(k, t)
    ensures Occurs(k, t + u)
    decreases |t|
  {
    if StartsWith(t, k) {
      assert (t + u)[..|k|] == t[..|k|];
    } else {
      assert (t + u)[1..] == t[1..] + u;
      OccursAppend(k, t[1..], u);
    }
  }

  /** A block with a character that the text lacks does not occur in it. */
  lemma {:induction false} AbsentByChar(k: string, t: string, c: char)
    requires c in k && c !in t
    ensures !Occurs(k, t)
    decreases |t|
  {
    if |k| <= |t| {
      assert forall d :: d in t[..|k|] ==> d in t;
    }
    if |t| > 0 {
      assert forall d :: d in t[1..] ==> d in t;
      AbsentByChar(k, t[1..], c);
    }
  }

  /** The first three characters of `k` never appear in a row in `t`. */
  predicate NoTrigram(k: string, t: string) {
    |k| >= 3 && forall i :: 0 <= i < |t| - 2 ==> !(t[i] == k[0] && t[i + 1] == k[1] && t[i + 2] == k[2])
  }

  /** A block of three or more characters does not occur in a text where
      its first three characters never appear in a row. */
  lemma {:induction false} AbsentByPrefix(k: string, t: string)
    requires NoTrigram(k, t)
    ensures !Occurs(k, t)
    decreases |t|
  {
    if |k| <= |t| {
      assert !(t[0] == k[0] && t[1] == k[1] && t[2] == k[2]);
      assert t[..|k|][0] == t[0] && t[..|k|][1] == t[1] && t[..|k|][2] == t[2];
    }
    if |t| > 0 {
      forall i | 0 <= i < |t[1..]| - 2
        ensures !(t[1..][i] == k[0] && t[1..][i + 1] == k[1] && t[1..][i + 2] == k[2])
      {
        assert t[1..][i] == t[i + 1];
      }
      AbsentByPrefix(k, t[1..]);
    }
  }

  /** A certificate that `k` does not occur in `t`, checkable on string
      constants without searching: the character `c` of `k` is missing from
      `t`, or the first three characters of `k` never appear in a row. */
  predicate ShownAbsent(k: string, t: string, c: char) {
    (c in k && c !in t) || NoTrigram(k, t)
  }

  lemma ShownAbsentSound(k: string, t: string, c: char)
    requires ShownAbsent(k, t, c)
    ensures !Occurs(k, t)
  {
    if c in k && c !in t {
      AbsentByChar(k, t, c);
    } else {
      AbsentByPrefix(k, t);
    }
  }

  /** `any(k in t for k in ks)`: a search with early exit. */
  predicate AnyOccurs(ks: seq<string>, t: string)
    decreases |ks|
  {
    ks != [] && (Occurs(ks[0], t) || AnyOccurs(ks[1..], t))
  }

  lemma {:induction false} AnyOccursIff(ks: seq<string>, t: string)
    ensures AnyOccurs(ks, t) <==> exists i :: 0 <= i < |ks| && Occurs(ks[i], t)
    decreases |ks|
  {
    if ks != [] {
      AnyOccursIff(ks[1..], t);
      if exists i :: 0 <= i < |ks| && Occurs(ks[i], t) {
        var i :| 0 <= i < |ks| && Occurs(ks[i], t);
        if i > 0 {
          assert Occurs(ks[1..][i - 1], t);
        }
      }
    }
  }

  /** How many of the keywords `ks` occur in `t`; each keyword counts once
      however often it occurs. */
  function Hits(ks: seq<string>, t: string): (n: nat)
    ensures n <= |ks|
    decreases |ks|
  {
    if ks == [] then 0
    else Hits(ks[..|ks| - 1], t) + (if Occurs(ks[|ks| - 1], t) then 1 else 0)
  }

  /** A text in which every keyword that occurs in `t` also occurs has at
      least as many hits. */
  lemma {:induction false} HitsMonotone(ks: seq<string>, t: string, u: string)
    requires forall i :: 0 <= i < |ks| && Occurs(ks[i], t) ==> Occurs(ks[i], u)
    ensures Hits(ks, t) <= Hits(ks, u)
    decreases |ks|
  {
    if ks != [] {
      var ks' := ks[..|ks| - 1];
      assert forall i :: 0 <= i < |ks'| ==> ks'[i] == ks[i];
      HitsMonotone(ks', t, u);
    }
  }

  lemma {:induction false} HitsNone(ks: seq<string>, t: string)
    requires forall i :: 0 <= i < |ks| ==> !Occurs(ks[i], t)
    ensures Hits(ks, t) == 0
    decreases |ks|
  {
    if ks != [] {
      HitsNone(ks[..|ks| - 1], t);
    }
  }

  lemma {:induction false} HitsSome(ks: seq<string>, t: string, i: nat)
    requires i < |ks| && Occurs(ks[i], t)
    ensures Hits(ks, t) >= 1
    decreases |ks|
  {
    if i < |ks| - 1 {
      HitsSome(ks[..|ks| - 1], t, i);
    }
  }

  /** Each keyword known to be absent lowers the largest possible count. */
  lemma {:induction false} HitsAbsent(ks: seq<string>, t: string, absent: set<nat>)
    requires forall j :: j in absent ==> j < |ks| && !Occurs(ks[j], t)
    ensures Hits(ks, t) <= |ks| - |absent|
    decreases |ks|
  {
    if ks == [] {
      assert absent == {};
    } else {
      var n := |ks| - 1;
      var rest := absent - {n};
      forall j | j in rest ensures j < n && !Occurs(ks[..n][j], t) {
        assert ks[..n][j] == ks[j];
      }
      HitsAbsent(ks[..n], t, rest);
      if n in absent {
        assert |rest| == |absent| - 1;
      } else {
        assert rest == absent;
      }
    }
  }

  /** `s.lstrip()` */
  function StripLeft(s: string): string
    decreases |s|
  {
    if s != [] && IsSpace(s[0]) then StripLeft(s[1..]) else s
  }

  /** `lstrip` removes exactly the leading whitespace. */
  lemma {:induction false} StripLeftSpec(s: string)
    ensures var r := StripLeft(s);
      && |r| <= |s| && r == s[|s| - |r|..]
      && (r != [] ==> !IsSpace(r[0]))
      && forall i :: 0 <= i < |s| - |r| ==> IsSpace(s[i])
    decreases |s|
  {
    if s != [] && IsSpace(s[0]) {
      StripLeftSpec(s[1..]);
      var r := StripLeft(s);
      forall i | 0 <= i < |s| - |r| ensures IsSpace(s[i]) {
        if i > 0 {
          assert s[i] == s[1..][i - 1];
        }
      }
    }
  }

  /** `s.rstrip()` */
  function StripRight(s: string): string
    decreases |s|
  {
    if s != [] && IsSpace(s[|s| - 1]) then StripRight(s[..|s| - 1]) else s
  }

  /** `rstrip` removes exactly the trailing whitespace. */
  lemma {:induction false} StripRightSpec(s: string)
    ensures var r := StripRight(s);
      && |r| <= |s| && r == s[..|r|]
      && (r != [] ==> !IsSpace(r[|r| - 1]))
      && forall i :: |r| <= i < |s| ==> IsSpace(s[i])
    decreases |s|
  {
    if s != [] && IsSpace(s[|s| - 1]) {
      StripRightSpec(s[..|s| - 1]);
    }
  }

  /** `s.strip()` */
  function Strip(s: string): string {
    StripRight(StripLeft(s))
  }

  /** Length of the leading run of non-whitespace characters. */
  function WordLength(s: string): (n: nat)
    ensures n <= |s|
    ensures forall i :: 0 <= i < n ==> !IsSpace(s[i])
    ensures n < |s| ==> IsSpace(s[n])
    decreases |s|
  {
    if s == [] || IsSpace(s[0]) then 0 else 1 + WordLength(s[1..])
  }

  /** `s.split()` with no separator: the maximal runs of non-whitespace
      characters, in order. */
  function Split(s: string): (ws: seq<string>)
    ensures forall i :: 0 <= i < |ws| ==> ws[i] != []
    decreases |s|
  {
    if s == [] then []
    else if IsSpace(s[0]) then Split(s[1..])
    else
      var n := WordLength(s);
      [s[..n]] + Split(s[n..])
  }

  /** A string splits into no words exactly when it is blank. */
  lemma {:induction false} SplitEmptyIff(s: string)
    ensures Split(s) == [] <==> forall i :: 0 <= i < |s| ==> IsSpace(s[i])
    decreases |s|
  {
    if s != [] && IsSpace(s[0]) {
      SplitEmptyIff(s[1..]);
      assert forall i :: 1 <= i < |s| ==> s[i] == s[1..][i - 1];
    }
  }

  /** Python's `a <= b` on strings: lexicographic by code point, a proper
      prefix first. */
  predicate StrLe(a: string, b: string)
    decreases |a|
  {
    a == [] || (b != [] && (a[0] < b[0] || (a[0] == b[0] && StrLe(a[1..], b[1..]))))
  }

  lemma {:induction false} StrLeTotal(a: string, b: string)
    ensures StrLe(a, b) || StrLe(b, a)
    decreases |a|
  {
    if a != [] && b != [] && a[0] == b[0] {
      StrLeTotal(a[1..], b[1..]);
    }
  }

  lemma {:induction false} StrLeTrans(a: string, b: string, c: string)
    requires StrLe(a, b) && StrLe(b, c)
    ensures StrLe(a, c)
    decreases |a|
  {
    if a != [] && a[0] == b[0] && b[0] == c[0] {
      StrLeTrans(a[1..], b[1..], c[1..]);
    }
  }
}
