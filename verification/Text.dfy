/** Strings as Rust's `str` methods see them. */
module Text {
  import opened Common

  /** Unicode White_Space. */
  predicate White(c: char) {
    || '\t' <= c <= '\r' || c == ' ' || c == '\U{85}' || c == '\U{A0}' || c == '\U{1680}'
    || '\U{2000}' <= c <= '\U{200A}' || c == '\U{2028}' || c == '\U{2029}' || c == '\U{202F}'
    || c == '\U{205F}' || c == '\U{3000}'
  }

  function TrimStart(s: string): (r: string)
    ensures |r| <= |s| && r == s[|s| - |r|..]
    ensures r != [] ==> !White(r[0])
    ensures s != [] && !White(s[0]) ==> r == s
  {
    if s == [] || !White(s[0]) then s else TrimStart(s[1..])
  }

  function TrimEnd(s: string): (r: string)
    ensures |r| <= |s| && r == s[..|r|]
    ensures r != [] ==> !White(r[|r| - 1])
    ensures s != [] && !White(s[|s| - 1]) ==> r == s
  {
    if s == [] || !White(s[|s| - 1]) then s else TrimEnd(s[..|s| - 1])
  }

  function Trim(s: string): (r: string)
    ensures |r| <= |s|
  {
    TrimEnd(TrimStart(s))
  }

  /** No white space at either end. */
  predicate Trimmed(s: string) {
    s == [] || (!White(s[0]) && !White(s[|s| - 1]))
  }

  /** Trimming changes exactly the strings with white space at an end, and what it returns has none. */
  lemma TrimIff(s: string)
    ensures Trim(s) == s <==> Trimmed(s)
    ensures Trimmed(Trim(s))
  {
    var a := TrimStart(s);
    var b := TrimEnd(a);
    if b != [] {
      assert b[0] == a[0];
    }
    if Trimmed(s) {
      assert a == s;
    }
  }

  function Utf8Width(c: char): nat {
    var n := c as int;
    if n < 0x80 then 1 else if n < 0x800 then 2 else if n < 0x1_0000 then 3 else 4
  }

  /** `str::len`: bytes of the UTF-8 form. */
  function Utf8Len(s: string): nat {
    if s == [] then 0 else Utf8Width(s[0]) + Utf8Len(s[1..])
  }

  /** The UTF-8 form of a character, section 3 of RFC 3629. */
  function Utf8Char(c: char): seq<nat> {
    var n := c as int;
    if n <= 0x7F then [n]
    else if n <= 0x7FF then [0xC0 + n / 0x40, 0x80 + n % 0x40]
    else if n <= 0xFFFF then [0xE0 + n / 0x1000, 0x80 + n / 0x40 % 0x40, 0x80 + n % 0x40]
    else [0xF0 + n / 0x4_0000, 0x80 + n / 0x1000 % 0x40, 0x80 + n / 0x40 % 0x40, 0x80 + n % 0x40]
  }

  function Utf8(s: string): seq<nat> {
    if s == [] then [] else Utf8Char(s[0]) + Utf8(s[1..])
  }

  lemma {:induction false} Utf8LenIs(s: string)
    ensures Utf8Len(s) == |Utf8(s)|
    decreases |s|
  {
    if s != [] {
      Utf8LenIs(s[1..]);
    }
  }

  // ------------------------------------------------------ letters and case

  predicate IsCapital(c: char) {
    'A' <= c <= 'Z'
  }

  /** The same character, but for the case of an ASCII letter. */
  predicate SameLetter(a: char, b: char) {
    || a == b
    || (IsCapital(a) && b as int == a as int + 32)
    || (IsCapital(b) && a as int == b as int + 32)
  }

  predicate SameText(a: string, b: string) {
    |a| == |b| && forall i :: 0 <= i < |a| ==> SameLetter(a[i], b[i])
  }

  /** `key` is `text` without ASCII capitals. */
  predicate Lowered(text: string, key: string) {
    SameText(text, key) && forall i :: 0 <= i < |key| ==> !IsCapital(key[i])
  }

  lemma SameLetterIff(a: char, b: char)
    ensures SameLetter(a, b) <==> LowerChar(a) == LowerChar(b)
  {
  }

  lemma LoweredIff(text: string, key: string)
    ensures Lowered(text, key) <==> key == AsciiLower(text)
  {
    if Lowered(text, key) {
      assert forall i :: 0 <= i < |key| ==> SameLetter(text[i], key[i]) && !IsCapital(key[i]);
    }
  }

  lemma SameTextIff(a: string, b: string)
    ensures SameText(a, b) <==> AsciiLower(a) == AsciiLower(b)
  {
    hide SameLetter;
    forall i | 0 <= i < |a| && i < |b|
      ensures SameLetter(a[i], b[i]) <==> AsciiLower(a)[i] == AsciiLower(b)[i]
    {
      SameLetterIff(a[i], b[i]);
    }
  }

  // --------------------------------------------------------------- trimming

  predicate AllWhite(s: string) {
    forall i :: 0 <= i < |s| ==> White(s[i])
  }

  /** `core` is what is left of `s` without the white space around it. */
  ghost predicate IsCore(s: string, core: string) {
    Trimmed(core) && exists before: string, after: string :: s == before + core + after && AllWhite(before) && AllWhite(after)
  }

  lemma TrimStartStep(s: string)
    requires s != []
    ensures TrimStart(s) == if White(s[0]) then TrimStart(s[1..]) else s
  {
  }

  lemma {:induction false} TrimStartSkips(s: string)
    ensures AllWhite(s[..|s| - |TrimStart(s)|])
    decreases |s|
  {
    hide White, TrimStart;
    if s != [] {
      TrimStartStep(s);
      if White(s[0]) {
        TrimStartSkips(s[1..]);
        var n := |s| - |TrimStart(s)|;
        assert s[..n] == [s[0]] + s[1..][..n - 1];
      }
    }
  }

  lemma {:induction false} TrimEndSkips(s: string)
    ensures AllWhite(s[|TrimEnd(s)|..])
    decreases |s|
  {
    hide White;
    if s != [] && White(s[|s| - 1]) {
      var init, n := s[..|s| - 1], |TrimEnd(s)|;
      TrimEndSkips(init);
      assert s[n..] == init[n..] + [s[|s| - 1]];
    }
  }

  lemma {:induction false} TrimStartOf(before: string, s: string)
    requires AllWhite(before)
    ensures TrimStart(before + s) == TrimStart(s)
    decreases |before|
  {
    hide White, TrimStart;
    if before == [] {
      assert before + s == s;
    } else {
      var rest, all := before[1..], before + s;
      assert all[0] == before[0] && all[1..] == rest + s;
      TrimStartStep(all);
      TrimStartOf(rest, s);
    }
  }

  lemma {:induction false} TrimEndOf(s: string, after: string)
    requires AllWhite(after)
    ensures TrimEnd(s + after) == TrimEnd(s)
    decreases |after|
  {
    hide White;
    if after == [] {
      assert s + after == s;
    } else {
      TrimEndOf(s, after[..|after| - 1]);
      assert (s + after)[..|s + after| - 1] == s + after[..|after| - 1];
    }
  }

  lemma PartsAreCore(s: string, before: string, core: string, after: string)
    requires s == before + core + after && AllWhite(before) && AllWhite(after) && Trimmed(core)
    ensures IsCore(s, core)
  {
    hide AllWhite, Trimmed;
  }

  lemma Reassemble(s: string, n: nat, m: nat)
    requires n + m <= |s|
    ensures s == s[..n] + s[n..][..m] + s[n..][m..]
  {
  }

  lemma TrimHasCore(s: string)
    ensures IsCore(s, Trim(s))
  {
    hide White, TrimStart, TrimEnd, AllWhite, Trimmed, IsCore;
    TrimIff(s);
    var a := TrimStart(s);
    var n, m := |s| - |a|, |TrimEnd(a)|;
    TrimStartSkips(s);
    TrimEndSkips(a);
    Reassemble(s, n, m);
    PartsAreCore(s, s[..n], Trim(s), a[m..]);
  }

  lemma TrimmedStays(core: string, after: string)
    requires Trimmed(core) && core != []
    ensures TrimStart(core + after) == core + after && TrimEnd(core) == core
  {
    hide White, TrimStart, TrimEnd;
    TrimStartStep(core + after);
  }

  lemma OnlyWhite(after: string)
    requires AllWhite(after)
    ensures TrimStart(after) == [] && TrimEnd([]) == []
  {
    hide White;
    TrimStartOf(after, []);
    assert after + [] == after;
  }

  lemma CoreIsTrim(before: string, core: string, after: string)
    requires AllWhite(before) && AllWhite(after) && Trimmed(core)
    ensures Trim(before + core + after) == core
  {
    hide White, AllWhite, Trimmed, TrimStart, TrimEnd;
    Associate(before, core, after);
    TrimStartOf(before, core + after);
    if core == [] {
      OnlyWhite(after);
      assert core + after == after;
    } else {
      TrimmedStays(core, after);
      TrimEndOf(core, after);
    }
  }

  lemma Associate(a: string, b: string, c: string)
    ensures a + b + c == a + (b + c)
  {
  }

  /** `trim` finds the core. */
  lemma TrimIsCore(s: string, core: string)
    ensures IsCore(s, core) <==> core == Trim(s)
  {
    hide Trim, Trimmed, AllWhite;
    TrimHasCore(s);
    if IsCore(s, core) {
      var before, after :| s == before + core + after && AllWhite(before) && AllWhite(after);
      CoreIsTrim(before, core, after);
    }
  }
}
