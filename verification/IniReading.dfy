/**
 What any text means as a configuration file, line by line: which lines are headers and
 which are entries, which section an entry belongs to, and that the last entry of a key
 counts. Comments, empty and malformed lines mean nothing.
 */
module IniReading {
  import opened Common
  import opened Text
  import opened Ini
  import opened Values

  function Lines(text: string): seq<string> {
    Split(text, '\n')
  }

  predicate Bracketed(core: string) {
    |core| >= 2 && core[0] == '[' && core[|core| - 1] == ']'
  }

  /** `[name]`, with white space around it and around the name. */
  ghost predicate IsHeader(line: string, name: string) {
    exists inner: string :: Trim(line) == "[" + inner + "]" && name == AsciiLower(Trim(inner))
  }

  predicate IsComment(core: string) {
    core != "" && (core[0] == '#' || core[0] == ';')
  }

  /** `key=value`, cut at the first `=`, with white space around it and around both. */
  ghost predicate IsEntry(line: string, key: string, value: string) {
    && !IsComment(Trim(line)) && !Bracketed(Trim(line))
    && key != ""
    && exists left: string, right: string ::
         Cut(Trim(line), left, right) && key == AsciiLower(Trim(left)) && value == Unescape(Trim(right))
  }

  predicate Cut(s: string, left: string, right: string) {
    s == left + "=" + right && '=' !in left
  }

  /** The last header before line `n` is `[section]`, and it has a name. */
  ghost predicate InSection(lines: seq<string>, n: nat, section: string)
    requires n <= |lines|
  {
    && section != ""
    && exists h :: 0 <= h < n && IsHeader(lines[h], section) && NoHeader(lines, h + 1, n)
  }

  ghost predicate NoHeader(lines: seq<string>, from: nat, to: nat)
    requires to <= |lines|
  {
    forall i, name :: from <= i < to ==> !IsHeader(lines[i], name)
  }

  /** Line `j` gives this key of this section a value. */
  ghost predicate Sets(lines: seq<string>, j: nat, section: string, key: string, value: string)
    requires j < |lines|
  {
    InSection(lines, j, section) && IsEntry(lines[j], key, value)
  }

  ghost predicate SetsSome(lines: seq<string>, j: nat, section: string, key: string)
    requires j < |lines|
  {
    exists value :: Sets(lines, j, section, key, value)
  }

  /** Line `j` is the last before line `n` that gives this key a value. */
  ghost predicate SetsLast(lines: seq<string>, n: nat, j: nat, section: string, key: string, value: string)
    requires n <= |lines|
  {
    j < n && Sets(lines, j, section, key, value) && forall i :: j < i < n ==> !SetsSome(lines, i, section, key)
  }

  /** The key is given this value before line `n`, and no other after that. */
  ghost predicate HasValue(lines: seq<string>, n: nat, section: string, key: string, value: string)
    requires n <= |lines|
  {
    exists j: nat :: SetsLast(lines, n, j, section, key, value)
  }

  // --------------------------------------------------------------- one line

  lemma CutIff(s: string, left: string, right: string)
    ensures Cut(s, left, right) <==> Find(s, '=') < |s| && left == s[..Find(s, '=')] && right == s[Find(s, '=') + 1..]
  {
    hide Find, Cut;
    if Cut(s, left, right) {
      CutIsFound(s, left, right);
    }
    if Find(s, '=') < |s| {
      FoundIsCut(s, Find(s, '='));
    }
  }

  lemma CutIsFound(s: string, left: string, right: string)
    requires Cut(s, left, right)
    ensures |left| < |s| && left == s[..|left|] && right == s[|left| + 1..] && Find(s, '=') == |left|
  {
    hide Find;
    assert s[|left|] == '=';
    forall k | 0 <= k < |left|
      ensures s[k] != '='
    {
      assert s[k] == left[k] && left[k] in left;
    }
    FindAt(s, '=', |left|);
  }

  lemma FoundIsCut(s: string, i: nat)
    requires i < |s| && s[i] == '=' && forall k :: 0 <= k < i ==> s[k] != '='
    ensures Cut(s, s[..i], s[i + 1..])
  {
    assert s == s[..i] + "=" + s[i + 1..];
  }

  lemma HeaderIff(line: string, name: string)
    ensures IsHeader(line, name) <==> ReadLine(line) == Header(name)
  {
    hide Trim, AsciiLower, Unescape, Find;
    var core := Trim(line);
    if Bracketed(core) {
      assert core == "[" + core[1..|core| - 1] + "]";
    }
    if inner: string :| core == "[" + inner + "]" && name == AsciiLower(Trim(inner)) {
      assert core[1..|core| - 1] == inner;
    }
  }

  lemma EntryIff(line: string, key: string, value: string)
    ensures IsEntry(line, key, value) <==> ReadLine(line) == Pair(key, value)
  {
    hide Trim, AsciiLower, Unescape, Find, Cut;
    var core := Trim(line);
    var i := Find(core, '=');
    if i < |core| {
      CutIff(core, core[..i], core[i + 1..]);
    }
    if left: string, right: string :| Cut(core, left, right) && key == AsciiLower(Trim(left)) && value == Unescape(Trim(right)) {
      CutIff(core, left, right);
    }
  }

  // ------------------------------------------------------------- all lines

  /** The reader's state after these lines. */
  function After(lines: seq<string>): State {
    if lines == [] then BLANK else Step(After(lines[..|lines| - 1]), lines[|lines| - 1])
  }

  lemma {:induction false} FeedFrom(done: seq<string>, text: string)
    ensures Feed(After(done), text) == After(done + Lines(text))
    decreases |text|
  {
    hide Step, StripCr, Find, Lines, After, Feed;
    var i := Find(text, '\n');
    LinesOf(text);
    StepBlank(After(done));
    if text == [] {
      FeedNothing(After(done));
      AfterOneMore(done, text);
    } else {
      FeedOnce(After(done), text);
      if i == |text| {
        FeedNothing(Step(After(done), text));
        AfterOneMore(done, text);
      } else {
        var line := text[..i];
        StepIgnoresCr(After(done), line);
        AfterOneMore(done, line);
        FeedFrom(done + [line], text[i + 1..]);
        assert done + [line] + Lines(text[i + 1..]) == done + ([line] + Lines(text[i + 1..]));
      }
    }
  }

  lemma LinesOf(text: string)
    ensures var i := Find(text, '\n');
            Lines(text) == if i == |text| then [text] else [text[..i]] + Lines(text[i + 1..])
  {
    hide Find;
  }

  lemma AfterOneMore(done: seq<string>, line: string)
    ensures After(done + [line]) == Step(After(done), line)
  {
    hide Step;
    assert (done + [line])[..|done|] == done;
  }

  lemma AfterNothing()
    ensures After([]) == BLANK
  {
  }

  lemma FeedIsAfter(text: string)
    ensures Feed(BLANK, text) == After(Lines(text))
  {
    hide Feed, Lines, After;
    FeedFrom([], text);
    AfterNothing();
    assert [] + Lines(text) == Lines(text);
  }

  lemma SectionStep(lines: seq<string>, n: nat, section: string)
    requires n < |lines|
    ensures InSection(lines, n + 1, section) <==>
            section != "" && (IsHeader(lines[n], section) || (InSection(lines, n, section) && forall name :: !IsHeader(lines[n], name)))
  {
    hide IsHeader;
    if InSection(lines, n, section) && forall name :: !IsHeader(lines[n], name) {
      var h :| 0 <= h < n && IsHeader(lines[h], section) && NoHeader(lines, h + 1, n);
      assert NoHeader(lines, h + 1, n + 1);
    }
    if section != "" && IsHeader(lines[n], section) {
      assert NoHeader(lines, n + 1, n + 1);
    }
    if InSection(lines, n + 1, section) {
      var h :| 0 <= h < n + 1 && IsHeader(lines[h], section) && NoHeader(lines, h + 1, n + 1);
      if h < n {
        assert NoHeader(lines, h + 1, n);
      }
    }
  }

  lemma {:induction false} SectionInForce(lines: seq<string>, n: nat, section: string)
    requires n <= |lines|
    ensures InSection(lines, n, section) <==> section != "" && After(lines[..n]).section == section
    decreases n
  {
    hide IsHeader, InSection, ReadLine, After;
    if n > 0 {
      SectionInForce(lines, n - 1, section);
      SectionStep(lines, n - 1, section);
      assert lines[..n] == lines[..n - 1] + [lines[n - 1]];
      AfterOneMore(lines[..n - 1], lines[n - 1]);
      SectionAfter(After(lines[..n - 1]), lines[n - 1], section);
    } else {
      NoSectionAtFirst(lines, section);
      assert lines[..0] == [];
    }
  }

  lemma SectionAfter(st: State, line: string, section: string)
    ensures Step(st, line).section == section <==>
              IsHeader(line, section) || (st.section == section && forall name :: !IsHeader(line, name))
  {
    hide IsHeader, ReadLine;
    forall name: string
      ensures IsHeader(line, name) <==> ReadLine(line) == Header(name)
    {
      HeaderIff(line, name);
    }
    if ReadLine(line).Header? {
      assert IsHeader(line, ReadLine(line).name);
    }
  }

  lemma NoSectionAtFirst(lines: seq<string>, section: string)
    ensures !InSection(lines, 0, section) && After([]).section == ""
  {
  }

  /** What line `n` does to a key. */
  lemma SetsStep(lines: seq<string>, n: nat, section: string, key: string, value: string)
    requires n < |lines|
    ensures var st := After(lines[..n + 1]);
            if Sets(lines, n, section, key, value) then At(st.out, section, key) == Some(value)
            else SetsSome(lines, n, section, key) || At(st.out, section, key) == At(After(lines[..n]).out, section, key)
  {
    hide IsEntry, InSection, ReadLine;
    SectionInForce(lines, n, section);
    assert lines[..n + 1][..n] == lines[..n];
    EntryIff(lines[n], key, value);
    var line := ReadLine(lines[n]);
    if line.Pair? {
      EntryIff(lines[n], line.key, line.value);
      if line.key == key && InSection(lines, n, section) {
        assert Sets(lines, n, section, key, line.value);
      }
    }
  }

  lemma {:induction false} ValueAfter(lines: seq<string>, n: nat, section: string, key: string, value: string)
    requires n <= |lines|
    ensures At(After(lines[..n]).out, section, key) == Some(value) <==> HasValue(lines, n, section, key, value)
    decreases n
  {
    hide Sets, After, SetsLast, SetsSome, HasValue;
    if n == 0 {
      assert lines[..0] == [];
      NothingRead(lines, section, key, value);
    } else {
      ValueAfter(lines, n - 1, section, key, value);
      SetsStep(lines, n - 1, section, key, value);
      LastStep(lines, n - 1, section, key, value);
      if SetsSome(lines, n - 1, section, key) {
        var other := SomeValue(lines, n - 1, section, key);
        SetsStep(lines, n - 1, section, key, other);
      }
    }
  }

  lemma SomeValue(lines: seq<string>, n: nat, section: string, key: string) returns (value: string)
    requires n < |lines| && SetsSome(lines, n, section, key)
    ensures Sets(lines, n, section, key, value)
  {
    hide Sets;
    value :| Sets(lines, n, section, key, value);
  }

  lemma NothingRead(lines: seq<string>, section: string, key: string, value: string)
    ensures After([]).out == map[] && !HasValue(lines, 0, section, key, value)
  {
  }

  lemma LastStep(lines: seq<string>, n: nat, section: string, key: string, value: string)
    requires n < |lines|
    ensures HasValue(lines, n + 1, section, key, value) <==>
            Sets(lines, n, section, key, value) || (!SetsSome(lines, n, section, key) && HasValue(lines, n, section, key, value))
  {
    hide Sets;
    if Sets(lines, n, section, key, value) {
      assert SetsLast(lines, n + 1, n, section, key, value);
    }
    if !SetsSome(lines, n, section, key) && HasValue(lines, n, section, key, value) {
      var j: nat :| SetsLast(lines, n, j, section, key, value);
      assert SetsLast(lines, n + 1, j, section, key, value);
    }
    if HasValue(lines, n + 1, section, key, value) {
      var m := n + 1;
      var j: nat :| SetsLast(lines, m, j, section, key, value);
      if j < n {
        assert SetsLast(lines, n, j, section, key, value);
      }
    }
  }

  /**
   For every text: a key of a section has a value exactly if some line gives it that value and no
   later line gives it one.
   */
  lemma KeyHasValueIff(text: string, section: string, key: string, value: string)
    ensures At(Feed(BLANK, text).out, section, key) == Some(value) <==>
            HasValue(Lines(text), |Lines(text)|, section, key, value)
  {
    hide HasValue, After, Feed, Lines;
    var lines := Lines(text);
    FeedIsAfter(text);
    assert lines[..|lines|] == lines;
    ValueAfter(lines, |lines|, section, key, value);
  }

  // ------------------------------------------------------- stray backslashes

  /** No backslash starts an escape. */
  predicate NoEscapes(s: string) {
    forall i :: 0 <= i < |s| - 1 && s[i] == '\\' ==> s[i + 1] != 'n' && s[i + 1] != ';' && s[i + 1] != '\\'
  }

  /** A text in which no backslash starts an escape, like a path typed by hand, is read as it stands. */
  lemma {:induction false} UnescapeLeaves(s: string)
    requires NoEscapes(s)
    ensures Unescape(s) == s
    decreases |s|
  {
    hide Unescape;
    if s == [] {
      UnescapeNothing();
    } else {
      UnescapePiece(s);
      var n := Piece(s).0;
      var rest := s[n..];
      assert forall i :: 0 <= i < |rest| ==> rest[i] == s[i + n];
      UnescapeLeaves(rest);
      assert s == s[..n] + rest && Piece(s).1 == s[..n];
    }
  }
}
