/** The JavaScript string operations the core relies on: `trim`, `includes`
    and `toLowerCase`. Characters are Dafny `char`s; case folding is the
    ASCII one. */
module Text {

  /** The white space `String.prototype.trim` strips, restricted to the
      characters below U+0100 plus the byte-order mark. */
  predicate IsSpace(c: char) {
    c == ' ' || c == '\t' || c == '\n' || c == '\r' || c == '\U{000B}' || c == '\U{000C}'
    || c == '\U{00A0}' || c == '\U{FEFF}'
  }

  predicate AllSpace(s: string) {
    forall i :: 0 <= i < |s| ==> IsSpace(s[i])
  }

  /** `r` is `s` with the white-space prefix `s[..i]` and the white-space
      suffix `s[j..]` taken off. */
  predicate StripsTo(s: string, r: string, i: int, j: int) {
    0 <= i <= j <= |s| && r == s[i..j] && AllSpace(s[..i]) && AllSpace(s[j..])
  }

  /** A leading space extends the stripped prefix by one. */
  lemma StripsFront(s: string, r: string, i: int, j: int)
    requires s != [] && IsSpace(s[0]) && StripsTo(s[1..], r, i, j)
    ensures StripsTo(s, r, i + 1, j + 1)
  {
    var t := s[1..];
    assert AllSpace(s[..i + 1]) by {
      forall k | 1 <= k < i + 1 ensures IsSpace(s[k]) {
        assert s[k] == t[..i][k - 1];
      }
    }
    assert s[j + 1..] == t[j..];
  }

  /** A trailing space extends the stripped suffix by one. */
  lemma StripsBack(s: string, r: string, i: int, j: int)
    requires s != [] && IsSpace(s[|s| - 1]) && StripsTo(s[..|s| - 1], r, i, j)
    ensures StripsTo(s, r, i, j)
  {
    var t := s[..|s| - 1];
    assert s[..i] == t[..i];
    assert AllSpace(s[j..]) by {
      forall k | j <= k < |s| - 1 ensures IsSpace(s[k]) {
        assert s[k] == t[j..][k - j];
      }
    }
  }

  /** `s.trim()`: strips white space from both ends. The result is the
      part of `s` between a white-space prefix and a white-space suffix; it is
      empty exactly when `s` is all white space, and otherwise starts and
      ends with a non-space character. */
  function Trim(s: string): (r: string)
    ensures |r| <= |s|
    ensures exists i, j :: StripsTo(s, r, i, j)
    ensures r == [] <==> AllSpace(s)
    ensures r != [] ==> !IsSpace(r[0]) && !IsSpace(r[|r| - 1])
  {
    if s != [] && IsSpace(s[0]) then
      var t := s[1..];
      var r := Trim(t);
      assert AllSpace(s) <==> AllSpace(t) by {
        assert forall i :: 1 <= i < |s| ==> s[i] == t[i - 1];
      }
      assert exists i, j :: StripsTo(s, r, i, j) by {
        var i, j :| StripsTo(t, r, i, j);
        StripsFront(s, r, i, j);
      }
      r
    else if s != [] && IsSpace(s[|s| - 1]) then
      var t := s[..|s| - 1];
      var r := Trim(t);
      assert AllSpace(s) <==> AllSpace(t) by {
        assert forall i :: 0 <= i < |s| - 1 ==> s[i] == t[i];
      }
      assert exists i, j :: StripsTo(s, r, i, j) by {
        var i, j :| StripsTo(t, r, i, j);
        StripsBack(s, r, i, j);
      }
      r
    else
      assert StripsTo(s, s, 0, |s|);
      s
  }

  /** Trimming twice is trimming once, so a trimmed stored value is stable. */
  lemma {:induction false} TrimIdempotent(s: string)
    ensures Trim(Trim(s)) == Trim(s)
  {
  }

  /** `t` occurs in `s` starting at index `i`. */
  predicate OccursAt(s: string, t: string, i: int) {
    0 <= i <= |s| - |t| && s[i..i + |t|] == t
  }

  /** `s.includes(t)`. */
  function Includes(s: string, t: string): (b: bool)
    ensures b <==> exists i :: OccursAt(s, t, i)
    decreases |s|
  {
    if |t| > |s| then false
    else if s[..|t|] == t then
      assert OccursAt(s, t, 0);
      true
    else
      var b := Includes(s[1..], t);
      assert b ==> exists i :: OccursAt(s, t, i) by {
        if b {
          var k :| OccursAt(s[1..], t, k);
          assert s[1..][k..k + |t|] == s[k + 1..k + 1 + |t|];
          assert OccursAt(s, t, k + 1);
        }
      }
      assert (exists i :: OccursAt(s, t, i)) ==> b by {
        if exists i :: OccursAt(s, t, i) {
          var k :| OccursAt(s, t, k);
          assert k != 0;
          assert s[1..][k - 1..k - 1 + |t|] == s[k..k + |t|];
          assert OccursAt(s[1..], t, k - 1);
        }
      }
      b
  }

  /** Every string includes the empty string. */
  lemma IncludesEmpty(s: string)
    ensures Includes(s, "")
  {
    assert OccursAt(s, "", 0);
  }

  /** `s.includes("@")` holds exactly when the character occurs in `s`. */
  lemma {:induction false} IncludesChar(s: string, c: char)
    ensures Includes(s, [c]) <==> c in s
  {
    if c in s {
      var k :| 0 <= k < |s| && s[k] == c;
      assert OccursAt(s, [c], k);
    }
    if Includes(s, [c]) {
      var k :| OccursAt(s, [c], k);
      assert s[k] == s[k..k + 1][0];
    }
  }

  function LowerChar(c: char): char {
    if 'A' <= c <= 'Z' then (c as int + 32) as char else c
  }

  /** `s.toLowerCase()` on ASCII letters: same length, each upper-case
      letter replaced by its lower case, every other character unchanged,
      and so no upper-case ASCII letter is left. */
  function ToLower(s: string): (r: string)
    ensures |r| == |s|
    ensures forall i :: 0 <= i < |r| ==> !('A' <= r[i] <= 'Z')
    ensures forall i :: 0 <= i < |s| && 'A' <= s[i] <= 'Z' ==> r[i] as int == s[i] as int + 32
    ensures forall i :: 0 <= i < |s| && !('A' <= s[i] <= 'Z') ==> r[i] == s[i]
  {
    seq(|s|, i requires 0 <= i < |s| => LowerChar(s[i]))
  }
}
