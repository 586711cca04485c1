/**
 * The two string operations the pipeline relies on: Python's `str.strip()`
 * with no argument, and the substring test `t in s`.
 */
module Text {

  /** `str.isspace()` of one code point: exactly the characters `str.strip()` removes. */
  predicate IsSpace(c: char) {
    var n := c as int;
    || (0x09 <= n <= 0x0D)
    || (0x1C <= n <= 0x20)
    || n == 0x85
    || n == 0xA0
    || n == 0x1680
    || (0x2000 <= n <= 0x200A)
    || n == 0x2028
    || n == 0x2029
    || n == 0x202F
    || n == 0x205F
    || n == 0x3000
  }

  predicate AllSpace(s: string) {
    forall i :: 0 <= i < |s| ==> IsSpace(s[i])
  }

  /** Neither end of `s` is whitespace (vacuously so for the empty string). */
  predicate IsStripped(s: string) {
    |s| == 0 || (!IsSpace(s[0]) && !IsSpace(s[|s| - 1]))
  }

  /** `s` consists of `core` at position `i` with only whitespace on either side. */
  ghost predicate PaddedAt(s: string, core: string, i: int) {
    && 0 <= i
    && i + |core| <= |s|
    && s[i..i + |core|] == core
    && AllSpace(s[..i])
    && AllSpace(s[i + |core|..])
  }

  ghost predicate Pads(s: string, core: string) {
    exists i :: PaddedAt(s, core, i)
  }

  /** `str.lstrip()`: drops the leading whitespace and nothing else. */
  function TrimStart(s: string): (r: string)
    ensures |r| <= |s| && r == s[|s| - |r|..]
    ensures AllSpace(s[..|s| - |r|])
    ensures |r| == 0 || !IsSpace(r[0])
  {
    if |s| > 0 && IsSpace(s[0]) then TrimStart(s[1..]) else s
  }

  /** `str.rstrip()`: drops the trailing whitespace and nothing else. */
  function TrimEnd(s: string): (r: string)
    ensures |r| <= |s| && r == s[..|r|]
    ensures AllSpace(s[|r|..])
    ensures |r| == 0 || !IsSpace(r[|r| - 1])
  {
    if |s| > 0 && IsSpace(s[|s| - 1]) then TrimEnd(s[..|s| - 1]) else s
  }

  /** `str.strip()`: the result has no whitespace at either end and is `s` minus its padding. */
  function Strip(s: string): (r: string)
    ensures IsStripped(r)
  {
    TrimEnd(TrimStart(s))
  }

  /** What `Strip` removes is whitespace at the two ends and nothing else. */
  lemma StripPads(s: string)
    ensures Pads(s, Strip(s))
  {
    var t := TrimStart(s);
    var r := TrimEnd(t);
    assert s[|s| - |t|..][|r|..] == s[|s| - |t| + |r|..];
    assert PaddedAt(s, r, |s| - |t|);
  }

  lemma {:induction false} TrimStartOfPadded(a: string, t: string)
    requires AllSpace(a)
    requires |t| == 0 || !IsSpace(t[0])
    ensures TrimStart(a + t) == t
    decreases |a|
  {
    if |a| == 0 {
      assert a + t == t;
    } else {
      assert (a + t)[0] == a[0];
      assert (a + t)[1..] == a[1..] + t;
      TrimStartOfPadded(a[1..], t);
    }
  }

  lemma {:induction false} TrimEndOfPadded(t: string, b: string)
    requires AllSpace(b)
    requires |t| == 0 || !IsSpace(t[|t| - 1])
    ensures TrimEnd(t + b) == t
    decreases |b|
  {
    if |b| == 0 {
      assert t + b == t;
    } else {
      var n := |t + b|;
      assert (t + b)[n - 1] == b[|b| - 1];
      assert (t + b)[..n - 1] == t + b[..|b| - 1];
      TrimEndOfPadded(t, b[..|b| - 1]);
    }
  }

  /** Stripping a padded string gives back exactly its stripped core. */
  lemma StripOfPadded(a: string, core: string, b: string)
    requires AllSpace(a) && AllSpace(b)
    requires IsStripped(core)
    ensures Strip(a + core + b) == core
  {
    if |core| == 0 {
      assert a + core + b == (a + b) + [];
      TrimStartOfPadded(a + b, []);
      assert TrimEnd([]) == [];
    } else {
      assert a + core + b == a + (core + b);
      assert (core + b)[0] == core[0];
      TrimStartOfPadded(a, core + b);
      TrimEndOfPadded(core, b);
    }
  }

  /** `Strip` is characterised independently of its definition: its result is the one stripped core that `s` pads. */
  lemma StripCharacterization(s: string, core: string)
    ensures Strip(s) == core <==> IsStripped(core) && Pads(s, core)
  {
    StripPads(s);
    if IsStripped(core) && Pads(s, core) {
      var i :| PaddedAt(s, core, i);
      StripAt(s, core, i);
    }
  }

  /** A string padding a stripped core at `i` strips to that core. */
  lemma StripAt(s: string, core: string, i: int)
    requires IsStripped(core) && PaddedAt(s, core, i)
    ensures Strip(s) == core
  {
    var a, b := s[..i], s[i + |core|..];
    assert s == a + core + b by {
      assert s == s[..i] + s[i..i + |core|] + s[i + |core|..];
    }
    StripOfPadded(a, core, b);
  }

  /** Stripping twice is stripping once. */
  lemma StripIdempotent(s: string)
    ensures Strip(Strip(s)) == Strip(s)
  {
  }

  /** Only the outer ends of a concatenation decide whether it is stripped. */
  lemma StrippedByEnds(x: string, y: string)
    requires x != [] && !IsSpace(x[0])
    requires y != [] && !IsSpace(y[|y| - 1])
    ensures IsStripped(x + y)
  {
  }

  /** `p` is a prefix of `s`, as `s.startswith(p)`. */
  predicate StartsWith(s: string, p: string) {
    |p| <= |s| && s[..|p|] == p
  }

  /** Python's `t in s` for strings. */
  predicate Contains(s: string, t: string)
    decreases |s|
  {
    StartsWith(s, t) || (|s| > 0 && Contains(s[1..], t))
  }

  /** `t` occurs in `s` starting at index `i`. */
  ghost predicate OccursAt(s: string, t: string, i: int) {
    0 <= i && i + |t| <= |s| && s[i..i + |t|] == t
  }

  ghost predicate Mentions(s: string, t: string) {
    exists i :: OccursAt(s, t, i)
  }

  /** The executable search agrees with the positional definition of a substring. */
  lemma {:induction false} ContainsIff(s: string, t: string)
    ensures Contains(s, t) <==> Mentions(s, t)
    decreases |s|
  {
    if Contains(s, t) {
      if StartsWith(s, t) {
        assert OccursAt(s, t, 0);
      } else {
        ContainsIff(s[1..], t);
        var j :| OccursAt(s[1..], t, j);
        assert s[1..][j..j + |t|] == s[j + 1..j + 1 + |t|];
        assert OccursAt(s, t, j + 1);
      }
    }
    if Mentions(s, t) {
      var i :| OccursAt(s, t, i);
      if i > 0 {
        assert s[1..][i - 1..i - 1 + |t|] == s[i..i + |t|];
        assert OccursAt(s[1..], t, i - 1);
        ContainsIff(s[1..], t);
      } else {
        assert StartsWith(s, t);
      }
    }
  }

  /** Whatever sits between `x` and `y` is found in `x + t + y`. */
  lemma ContainsInfix(x: string, t: string, y: string)
    ensures Contains(x + t + y, t)
  {
    assert (x + t + y)[|x|..|x| + |t|] == t;
    assert OccursAt(x + t + y, t, |x|);
    ContainsIff(x + t + y, t);
  }

  /** A suffix is found in the whole. */
  lemma ContainsTail(x: string, t: string)
    ensures Contains(x + t, t)
  {
    assert x + t + [] == x + t;
    ContainsInfix(x, t, []);
  }
}
