/**
 The INI format of `config.ini`: escaping, reading lines, and exactly which entry
 lines read back as what was written.
 */
module Ini {
  import opened Common
  import opened Text

  // ------------------------------------------------------------- searching

  /** Index of the first `c`, or the length. */
  function Find(s: string, c: char): (i: nat)
    ensures i <= |s|
    ensures forall k :: 0 <= k < i ==> s[k] != c
    ensures i < |s| ==> s[i] == c
  {
    if s == [] || s[0] == c then 0 else 1 + Find(s[1..], c)
  }

  lemma FindAt(s: string, c: char, i: nat)
    requires i <= |s| && (forall k :: 0 <= k < i ==> s[k] != c) && (i < |s| ==> s[i] == c)
    ensures Find(s, c) == i
  {
  }

  // -------------------------------------------------------------- escaping

  function Replace(s: string, c: char, with: string): string {
    if s == [] then [] else (if s[0] == c then with else [s[0]]) + Replace(s[1..], c, with)
  }

  /** Three passes over the whole text, the backslash first. */
  function Escape(v: string): string {
    Replace(Replace(Replace(v, '\\', "\\\\"), '\n', "\\n"), ';', "\\;")
  }

  function Unescape(v: string): string {
    if v == [] then []
    else if v[0] != '\\' then [v[0]] + Unescape(v[1..])
    else if |v| == 1 then ['\\']
    else (match v[1]
          case 'n' => "\n"
          case ';' => ";"
          case '\\' => "\\"
          case other => ['\\', other]) + Unescape(v[2..])
  }

  /** One round of the loop: what is consumed and what is put out. */
  function Piece(v: string): (nat, string)
    requires v != []
  {
    if v[0] != '\\' then (1, [v[0]])
    else if |v| == 1 then (1, "\\")
    else (2, match v[1]
             case 'n' => "\n"
             case ';' => ";"
             case '\\' => "\\"
             case other => ['\\', other])
  }

  lemma UnescapePiece(v: string)
    requires v != []
    ensures var (n, piece) := Piece(v); n <= |v| && Unescape(v) == piece + Unescape(v[n..])
  {
  }

  lemma Regroup(a: string, b: string, c: string)
    ensures a + (b + c) == (a + b) + c
  {
  }

  /** `unescape_ini`, character by character. */
  method UnescapeIni(v: string) returns (out: string)
    ensures out == Unescape(v)
  {
    hide Unescape;
    out := [];
    var i := 0;
    assert v[0..] == v;
    while i < |v|
      invariant i <= |v| && Unescape(v) == out + Unescape(v[i..])
    {
      UnescapePiece(v[i..]);
      ghost var (n, piece) := Piece(v[i..]);
      assert v[i..][n..] == v[i + n..];
      ghost var was := out;
      if v[i] == '\\' {
        if i + 1 < |v| {
          var c := v[i + 1];
          if c == 'n' { out := out + "\n"; }
          else if c == ';' { out := out + ";"; }
          else if c == '\\' { out := out + "\\"; }
          else { out := out + ['\\', c]; }
          i := i + 2;
        } else {
          out := out + "\\";
          i := i + 1;
        }
      } else {
        out := out + [v[i]];
        i := i + 1;
      }
      assert out == was + piece;
      Regroup(was, piece, Unescape(v[i..]));
    }
    UnescapeNothing();
    assert v[i..] == "";
  }

  function EscapeChar(c: char): string {
    if c == '\\' then "\\\\" else if c == '\n' then "\\n" else if c == ';' then "\\;" else [c]
  }

  lemma {:induction false} ReplaceAppend(a: string, b: string, c: char, with: string)
    ensures Replace(a + b, c, with) == Replace(a, c, with) + Replace(b, c, with)
    decreases |a|
  {
    if a == [] {
      assert a + b == b;
    } else {
      var ab := a + b;
      assert ab[0] == a[0] && ab[1..] == a[1..] + b;
      ReplaceAppend(a[1..], b, c, with);
      var first, x, y := if a[0] == c then with else [a[0]], Replace(a[1..], c, with), Replace(b, c, with);
      assert Replace(ab, c, with) == first + (x + y) && first + (x + y) == (first + x) + y;
    }
  }

  lemma ReplaceOne(x: char, c: char, with: string)
    ensures Replace([x], c, with) == if x == c then with else [x]
  {
    assert [x][1..] == [];
  }

  lemma EscapeAppend(a: string, b: string)
    ensures Escape(a + b) == Escape(a) + Escape(b)
  {
    var a1, b1 := Replace(a, '\\', "\\\\"), Replace(b, '\\', "\\\\");
    ReplaceAppend(a, b, '\\', "\\\\");
    ReplaceAppend(a1, b1, '\n', "\\n");
    ReplaceAppend(Replace(a1, '\n', "\\n"), Replace(b1, '\n', "\\n"), ';', "\\;");
  }

  /** No pass sees the output of another as input of its own. */
  lemma EscapeOne(c: char)
    ensures Escape([c]) == EscapeChar(c)
  {
    ReplaceOne(c, '\\', "\\\\");
    ReplaceOne(c, '\n', "\\n");
    ReplaceOne(c, ';', "\\;");
    if c == '\\' {
      ReplaceAppend("\\", "\\", '\n', "\\n");
      ReplaceAppend("\\", "\\", ';', "\\;");
      ReplaceOne('\\', '\n', "\\n");
      ReplaceOne('\\', ';', "\\;");
      assert "\\" + "\\" == "\\\\";
    } else if c == '\n' {
      ReplaceAppend("\\", "n", ';', "\\;");
      ReplaceOne('\\', ';', "\\;");
      ReplaceOne('n', ';', "\\;");
      assert "\\" + "n" == "\\n";
    }
  }

  lemma EscapeCons(v: string)
    requires v != []
    ensures Escape(v) == EscapeChar(v[0]) + Escape(v[1..])
  {
    EscapeAppend([v[0]], v[1..]);
    EscapeOne(v[0]);
    assert v == [v[0]] + v[1..];
  }

  lemma EscapeSnoc(v: string)
    requires v != []
    ensures Escape(v) == Escape(v[..|v| - 1]) + EscapeChar(v[|v| - 1])
  {
    EscapeAppend(v[..|v| - 1], [v[|v| - 1]]);
    EscapeOne(v[|v| - 1]);
    assert v == v[..|v| - 1] + [v[|v| - 1]];
  }

  lemma EscapeNothing()
    ensures Escape("") == ""
  {
  }

  lemma UnescapeNothing()
    ensures Unescape("") == ""
  {
  }

  lemma UnescapeOne(c: char, rest: string)
    ensures Unescape(EscapeChar(c) + rest) == [c] + Unescape(rest)
  {
    var e := EscapeChar(c);
    assert (e + rest)[|e|..] == rest;
  }

  /** Whatever follows it, an escaped text unescapes to the text. */
  lemma {:induction false} UnescapeEscape(a: string, b: string)
    ensures Unescape(Escape(a) + b) == a + Unescape(b)
    decreases |a|
  {
    hide Escape, Unescape;
    if a == [] {
      EscapeNothing();
      assert Escape(a) + b == b;
    } else {
      EscapeCons(a);
      UnescapeEscape(a[1..], b);
      UnescapeOne(a[0], Escape(a[1..]) + b);
      assert Escape(a) + b == EscapeChar(a[0]) + (Escape(a[1..]) + b);
      assert [a[0]] + (a[1..] + Unescape(b)) == a + Unescape(b);
    }
  }

  lemma EscapeRoundTrip(a: string)
    ensures Unescape(Escape(a)) == a
  {
    UnescapeEscape(a, "");
    assert Escape(a) + "" == Escape(a) && a + "" == a;
  }

  /** Text without a backslash, newline or semicolon; only such text is printed as it is. */
  predicate Plain(s: string) {
    '\\' !in s && '\n' !in s && ';' !in s
  }

  lemma {:induction false} EscapePlainIff(s: string)
    ensures |Escape(s)| >= |s|
    ensures Escape(s) == s <==> Plain(s)
    ensures |Escape(s)| == |s| ==> Plain(s)
    decreases |s|
  {
    if s != [] {
      EscapeCons(s);
      EscapePlainIff(s[1..]);
      hide Escape;
      assert s == [s[0]] + s[1..];
    }
  }

  lemma {:induction false} EscapeStaysOnLine(v: string)
    ensures '\n' !in Escape(v)
    decreases |v|
  {
    if v != [] {
      EscapeCons(v);
      EscapeStaysOnLine(v[1..]);
    }
  }

  lemma {:induction false} EscapeKeepsEquals(v: string)
    requires '=' !in v
    ensures '=' !in Escape(v)
    decreases |v|
  {
    if v != [] {
      EscapeCons(v);
      EscapeKeepsEquals(v[1..]);
    }
  }

  // -------------------------------------------------------------- trimming

  /** White space that escaping leaves visible to `trim`; a newline at an end is protected. */
  predicate Blank(c: char) {
    White(c) && c != '\n'
  }

  function StripStart(s: string): string {
    if s == [] || !Blank(s[0]) then s else StripStart(s[1..])
  }

  function StripEnd(s: string): string {
    if s == [] || !Blank(s[|s| - 1]) then s else StripEnd(s[..|s| - 1])
  }

  /** What is left of a value after printing, trimming and reading. */
  function Strip(s: string): string {
    StripEnd(StripStart(s))
  }

  lemma WhiteFacts()
    ensures White('\n') && White('\r') && !White('\\') && !White(';') && !White('n') && !White('=')
    ensures !White('[') && !White(']') && !White('#')
  {
  }

  lemma {:induction false} TrimStartEscape(v: string)
    ensures TrimStart(Escape(v)) == Escape(StripStart(v))
    decreases |v|
  {
    hide Escape, White;
    WhiteFacts();
    EscapeNothing();
    if v != [] {
      EscapeCons(v);
      if Blank(v[0]) {
        TrimStartEscape(v[1..]);
        assert Escape(v)[1..] == Escape(v[1..]);
        assert Escape(v)[0] == v[0];
      } else {
        assert !White(Escape(v)[0]);
      }
    }
  }

  lemma {:induction false} TrimEndEscape(v: string)
    ensures TrimEnd(Escape(v)) == Escape(StripEnd(v))
    decreases |v|
  {
    hide Escape, White;
    WhiteFacts();
    EscapeNothing();
    if v != [] {
      EscapeSnoc(v);
      var init := v[..|v| - 1];
      if Blank(v[|v| - 1]) {
        TrimEndEscape(init);
        assert Escape(v)[..|Escape(v)| - 1] == Escape(init);
        assert Escape(v)[|Escape(v)| - 1] == v[|v| - 1];
      } else {
        assert !White(Escape(v)[|Escape(v)| - 1]);
      }
    }
  }

  lemma TrimEscape(v: string)
    ensures Trim(Escape(v)) == Escape(Strip(v))
  {
    TrimStartEscape(v);
    TrimEndEscape(StripStart(v));
  }

  lemma TrimmedIsStripped(v: string)
    requires Trimmed(v)
    ensures Strip(v) == v
  {
  }

  lemma {:induction false} TrimStartAppend(s: string, c: char)
    requires White(c)
    ensures TrimStart(s + [c]) == if TrimStart(s) == [] then [] else TrimStart(s) + [c]
    decreases |s|
  {
    hide White;
    var t := s + [c];
    if s == [] {
      assert t[1..] == [] && TrimStart(t) == TrimStart(t[1..]);
    } else {
      assert t[0] == s[0] && t[1..] == s[1..] + [c];
      if White(s[0]) {
        TrimStartAppend(s[1..], c);
        assert TrimStart(t) == TrimStart(t[1..]);
      }
    }
  }

  /** White space at the end makes no difference to `trim`. */
  lemma TrimDropsWhite(s: string, c: char)
    requires White(c)
    ensures Trim(s + [c]) == Trim(s)
  {
    hide White;
    TrimStartAppend(s, c);
    var t := TrimStart(s);
    assert (t + [c])[..|t|] == t;
  }

  lemma {:induction false} TrimOfTrimEnd(s: string)
    ensures Trim(TrimEnd(s)) == Trim(s)
    decreases |s|
  {
    hide White, Trim;
    if s != [] && White(s[|s| - 1]) {
      TrimOfTrimEnd(s[..|s| - 1]);
      TrimDropsWhite(s[..|s| - 1], s[|s| - 1]);
      assert s == s[..|s| - 1] + [s[|s| - 1]];
    }
  }

  /** `trim_end` looks no further back than the last character that is not white. */
  lemma {:induction false} TrimEndAfter(a: string, c: char, b: string)
    requires !White(c)
    ensures TrimEnd(a + [c] + b) == a + [c] + TrimEnd(b)
    decreases |b|
  {
    var s := a + [c] + b;
    if b == [] {
      assert s == a + [c];
      assert TrimEnd(s) == s;
    } else {
      assert s[|s| - 1] == b[|b| - 1];
      if White(b[|b| - 1]) {
        assert s[..|s| - 1] == a + [c] + b[..|b| - 1];
        TrimEndAfter(a, c, b[..|b| - 1]);
      }
    }
  }

  // ----------------------------------------------------------------- lines

  /** What one line means. */
  datatype Line = Skip | Header(name: string) | Pair(key: string, value: string)

  function ReadLine(raw: string): Line {
    var line := Trim(raw);
    if line == [] || line[0] == '#' || line[0] == ';' then Skip
    else if |line| >= 2 && line[0] == '[' && line[|line| - 1] == ']' then
      Header(AsciiLower(Trim(line[1..|line| - 1])))
    else
      var i := Find(line, '=');
      if i == |line| then Skip
      else
        var key := AsciiLower(Trim(line[..i]));
        if key == [] then Skip else Pair(key, Unescape(Trim(line[i + 1..])))
  }

  /** Entries that `key=value` writes so that reading gives back exactly that key and value. */
  predicate Clean(k: string, v: string) {
    && k != [] && Trimmed(k) && AsciiLower(k) == k && Plain(k) && '=' !in k
    && k[0] != '#'
    && !(k[0] == '[' && v != [] && v[|v| - 1] == ']')
    && Strip(v) == v
  }

  function Entry(k: string, v: string): string {
    Escape(k) + "=" + Escape(v)
  }

  predicate EndsWith(s: string, c: char) {
    s != [] && s[|s| - 1] == c
  }

  lemma EscapeEnd(v: string)
    ensures EndsWith(Escape(v), ']') <==> EndsWith(v, ']')
  {
    if v != [] {
      EscapeSnoc(v);
    }
  }

  /** What is left of an entry line after trimming, when the key does not start with white space. */
  lemma EntryTrimmed(k: string, v: string)
    requires k != [] && !White(k[0])
    ensures Trim(Entry(k, v)) == Escape(k) + "=" + Escape(StripEnd(v))
    ensures Escape(k) != [] && Escape(k)[0] == if k[0] == ';' then '\\' else k[0]
  {
    var e, w := Escape(k), Escape(v);
    EscapeCons(k);
    TrimEndEscape(v);
    WhiteFacts();
    hide Escape, White, TrimEnd, StripEnd;
    TrimEndAfter(e, '=', w);
    assert Entry(k, v) == e + ['='] + w && TrimStart(Entry(k, v)) == Entry(k, v);
  }

  /** How an entry line is read, when its key does not start with white space and holds no `=`. */
  lemma ReadEntry(k: string, v: string)
    requires k != [] && !White(k[0]) && '=' !in k && k[0] != '#'
    ensures k[0] == '[' && EndsWith(StripEnd(v), ']') ==> ReadLine(Entry(k, v)).Header?
    ensures !(k[0] == '[' && EndsWith(StripEnd(v), ']')) ==>
              var key := AsciiLower(Trim(Escape(k)));
              ReadLine(Entry(k, v)) == if key == [] then Skip else Pair(key, Strip(v))
  {
    hide Escape, Trim, TrimEnd, Strip, StripEnd, White, Unescape, AsciiLower, Entry, Find;
    var e, w := Escape(k), Escape(StripEnd(v));
    EntryTrimmed(k, v);
    EscapeEnd(StripEnd(v));
    EscapeKeepsEquals(k);
    TrimEndEscape(v);
    TrimOfTrimEnd(Escape(v));
    TrimEscape(v);
    EscapeRoundTrip(Strip(v));
    var line := e + "=" + w;
    assert line[|line| - 1] == if w == [] then '=' else w[|w| - 1];
    FindAt(line, '=', |e|);
    assert line[..|e|] == e && line[|e| + 1..] == w;
  }

  /** Lower-casing maps neither into nor out of the characters the format gives a meaning. */
  lemma LowerChars(s: string)
    ensures AsciiLower(AsciiLower(s)) == AsciiLower(s)
    ensures Trimmed(AsciiLower(s)) <==> Trimmed(s)
    ensures '=' in AsciiLower(s) <==> '=' in s
  {
    hide LowerChar, White;
    var l := AsciiLower(s);
    forall i | 0 <= i < |s|
      ensures White(l[i]) == White(s[i]) && (l[i] == '=' <==> s[i] == '=') && LowerChar(l[i]) == l[i]
    {
      LowerOne(s[i]);
    }
    assert AsciiLower(l) == l;
    if '=' in s {
      var i :| 0 <= i < |s| && s[i] == '=';
      assert l[i] == '=';
    }
  }

  lemma LowerOne(c: char)
    ensures White(LowerChar(c)) == White(c) && (LowerChar(c) == '=' <==> c == '=') && LowerChar(LowerChar(c)) == LowerChar(c)
  {
  }

  /** An entry line is read as the written key and value exactly when they are clean. */
  lemma EntryReadsBackIff(k: string, v: string)
    ensures ReadLine(Entry(k, v)) == Pair(k, v) <==> Clean(k, v)
  {
    if Clean(k, v) {
      CleanReadsBack(k, v);
    }
    if ReadLine(Entry(k, v)) == Pair(k, v) {
      ReadBackIsClean(k, v);
    }
  }

  lemma CleanReadsBack(k: string, v: string)
    requires Clean(k, v)
    ensures ReadLine(Entry(k, v)) == Pair(k, v)
  {
    ReadEntry(k, v);
    EscapePlainIff(k);
    TrimIff(k);
    StripKeepsEnd(v);
    hide Escape, Trim, ReadLine, Entry, Strip, StripEnd, White;
  }

  lemma StripKeepsEnd(v: string)
    ensures Strip(v) == v ==> StripEnd(v) == v
  {
    StripShorter(v);
  }

  lemma {:induction false} StripShorter(v: string)
    ensures |StripStart(v)| <= |v| && |StripEnd(v)| <= |v|
    ensures |StripEnd(v)| == |v| ==> StripEnd(v) == v
    ensures |StripStart(v)| == |v| ==> StripStart(v) == v
    ensures |Strip(v)| == |v| ==> StripEnd(v) == v
    decreases |v|
  {
    if v != [] {
      StripShorter(v[1..]);
      StripShorter(v[..|v| - 1]);
      if |StripStart(v)| < |v| {
        StripShorter(StripStart(v));
      }
    }
  }

  lemma EntryOnLine(k: string, v: string)
    ensures '\n' !in Entry(k, v)
  {
    EscapeStaysOnLine(k);
    EscapeStaysOnLine(v);
    hide Escape;
  }

  lemma ReadBackIsClean(k: string, v: string)
    ensures ReadLine(Entry(k, v)) == Pair(k, v) ==> Clean(k, v)
  {
    hide ReadLine, Escape, Trim, Entry, Strip, StripEnd, White;
    EntryOnLine(k, v);
    KeyFacts(Entry(k, v));
    if ReadLine(Entry(k, v)) == Pair(k, v) {
      ReadEntry(k, v);
      EscapeTrimmed(k);
      TrimIff(Escape(k));
      EscapePlainIff(k);
      StripKeepsEnd(v);
    }
  }

  lemma EscapeTrimmed(k: string)
    requires k != [] && Trimmed(k)
    ensures Trimmed(Escape(k))
  {
    EscapeCons(k);
    EscapeSnoc(k);
    WhiteFacts();
    hide White, Escape;
  }

  lemma KeyOf(before: string)
    requires '=' !in before
    ensures var k := AsciiLower(Trim(before)); Trimmed(k) && '=' !in k && AsciiLower(k) == k
  {
    hide White, AsciiLower, Trim;
    TrimIff(before);
    LowerChars(Trim(before));
    TrimIsPart(before);
  }

  /** Whatever stands in a trimmed line before its first `=` starts as the line does. */
  lemma KeyStart(line: string, before: string)
    requires Trimmed(line) && before != [] && before <= line
    ensures AsciiLower(Trim(before)) != [] && AsciiLower(Trim(before))[0] == LowerChar(line[0])
  {
    assert before[0] == line[0] && !White(line[0]);
    assert TrimStart(before) == before;
    TrimEndKeepsFirst(before);
  }

  lemma {:induction false} TrimEndKeepsFirst(s: string)
    requires s != [] && !White(s[0])
    ensures TrimEnd(s) != [] && TrimEnd(s)[0] == s[0]
    decreases |s|
  {
    if White(s[|s| - 1]) {
      TrimEndKeepsFirst(s[..|s| - 1]);
    }
  }

  lemma NewlineStays(s: string)
    requires '\n' !in s
    ensures '\n' !in AsciiLower(Trim(s))
  {
    TrimIsPart(s);
    var t := Trim(s);
    hide Trim;
    forall i | 0 <= i < |t|
      ensures AsciiLower(t)[i] != '\n'
    {
      assert t[i] in t;
    }
  }

  /** Keys that can be read from a file. */
  predicate GoodKey(k: string) {
    && k != [] && Trimmed(k) && AsciiLower(k) == k && '=' !in k && '\n' !in k
    && k[0] != '#' && k[0] != ';'
  }

  /** Every key that is read is trimmed, lower case, free of `=` and starts no comment. */
  lemma KeyFacts(raw: string)
    requires '\n' !in raw
    ensures ReadLine(raw).Pair? ==> GoodKey(ReadLine(raw).key)
  {
    hide White, AsciiLower, Unescape, Trim, Trimmed, LowerChar;
    var line := Trim(raw);
    if ReadLine(raw).Pair? {
      var before := line[..Find(line, '=')];
      KeyOf(before);
      NothingTrims();
      TrimIff(raw);
      KeyStart(line, before);
      LowerSigns(line[0]);
      TrimIsPart(raw);
      NewlineStays(before);
    }
  }

  lemma NothingTrims()
    ensures AsciiLower(Trim([])) == []
  {
  }

  lemma LowerSigns(c: char)
    ensures (LowerChar(c) == '#' <==> c == '#') && (LowerChar(c) == ';' <==> c == ';')
  {
  }

  lemma TrimIsPart(s: string)
    ensures forall c :: c in Trim(s) ==> c in s
  {
    var a := TrimStart(s);
    assert forall c :: c in TrimEnd(a) ==> c in a;
  }

  // ------------------------------------------------------------ whole text

  type Keys = map<(string, string), string>

  /** The section in force and the values read so far. */
  datatype State = State(section: string, out: Keys)

  const BLANK := State("", map[])

  function Step(st: State, raw: string): State {
    match ReadLine(raw)
    case Skip => st
    case Header(name) => st.(section := name)
    case Pair(key, value) =>
      if st.section == [] then st else st.(out := st.out[(st.section, key) := value])
  }

  function StripCr(s: string): string {
    if EndsWith(s, '\r') then s[..|s| - 1] else s
  }

  /** Read line by line; a carriage return before a newline belongs to the line end. */
  function Feed(st: State, text: string): State
    decreases |text|
  {
    if text == [] then st
    else
      var i := Find(text, '\n');
      if i == |text| then Step(st, text) else Feed(Step(st, StripCr(text[..i])), text[i + 1..])
  }

  /** `parse_ini`. */
  method ParseIni(text: string) returns (out: Keys)
    ensures out == Feed(BLANK, text).out
  {
    hide ReadLine, Feed, StripCr, Find;
    out := map[];
    var section, rest := "", text;
    while rest != []
      invariant Feed(BLANK, text) == Feed(State(section, out), rest)
      decreases |rest|
    {
      FeedOnce(State(section, out), rest);
      var i := Find(rest, '\n');
      var raw := if i == |rest| then rest else StripCr(rest[..i]);
      rest := if i == |rest| then [] else rest[i + 1..];
      match ReadLine(raw)
      case Skip =>
      case Header(name) => section := name;
      case Pair(key, value) =>
        if section != [] { out := out[(section, key) := value]; }
    }
    FeedNothing(State(section, out));
  }

  lemma FeedNothing(st: State)
    ensures Feed(st, "") == st
  {
  }

  lemma FeedOnce(st: State, text: string)
    requires text != []
    ensures var i := Find(text, '\n');
            Feed(st, text) ==
            if i == |text| then Feed(Step(st, text), []) else Feed(Step(st, StripCr(text[..i])), text[i + 1..])
  {
    hide Step, StripCr, Find, ReadLine;
  }

  lemma ReadLineOfTrim(a: string, b: string)
    ensures Trim(a) == Trim(b) ==> ReadLine(a) == ReadLine(b)
  {
    hide Trim, AsciiLower, Unescape, Find;
  }

  /** A carriage return at the end of a line changes nothing. */
  lemma StepIgnoresCr(st: State, line: string)
    ensures Step(st, StripCr(line)) == Step(st, line)
  {
    hide ReadLine, Trim, White;
    WhiteFacts();
    if EndsWith(line, '\r') {
      TrimDropsWhite(StripCr(line), '\r');
      assert line == StripCr(line) + ['\r'];
      ReadLineOfTrim(line, StripCr(line));
    }
  }

  /** Reading a text that starts with a complete line. */
  lemma FeedLine(st: State, line: string, rest: string)
    requires '\n' !in line
    ensures Feed(st, line + "\n" + rest) == Feed(Step(st, line), rest)
  {
    var text := line + "\n" + rest;
    FindAt(text, '\n', |line|);
    assert text[..|line|] == line && text[|line| + 1..] == rest;
    StepIgnoresCr(st, line);
    hide Step, StripCr, Find;
  }

  // ---------------------------------------------------------------- blocks

  type Entries = seq<(string, string)>

  function EntriesText(entries: Entries): string {
    if entries == [] then ""
    else
      var e := entries[|entries| - 1];
      EntriesText(entries[..|entries| - 1]) + Entry(e.0, e.1) + "\n"
  }

  function Put(out: Keys, section: string, entries: Entries): Keys {
    if entries == [] then out
    else
      var e := entries[|entries| - 1];
      Put(out, section, entries[..|entries| - 1])[(section, e.0) := e.1]
  }

  /** Entries that are read as their value under their printed key, which is the key with its escapes. */
  predicate Loose(k: string, v: string) {
    GoodKey(k) && Strip(v) == v && !(k[0] == '[' && EndsWith(v, ']'))
  }

  ghost predicate AllLoose(entries: Entries) {
    forall i :: 0 <= i < |entries| ==> Loose(entries[i].0, entries[i].1)
  }

  /** Clean entries are the loose ones whose key is printed as it is. */
  lemma CleanIsPlainLoose(k: string, v: string)
    ensures Clean(k, v) <==> Loose(k, v) && Plain(k)
  {
    hide Strip, Trimmed, AsciiLower;
  }

  lemma {:induction false} EscapeKeepsLower(k: string)
    requires AsciiLower(k) == k && '\n' !in k
    ensures forall i :: 0 <= i < |Escape(k)| ==> !('A' <= Escape(k)[i] <= 'Z')
    decreases |k|
  {
    if k == [] {
      EscapeNothing();
    } else {
      EscapeCons(k);
      assert AsciiLower(k)[0] == LowerChar(k[0]) && AsciiLower(k)[1..] == AsciiLower(k[1..]);
      hide Escape;
      EscapeKeepsLower(k[1..]);
    }
  }

  lemma LooseReads(k: string, v: string)
    requires Loose(k, v)
    ensures ReadLine(Entry(k, v)) == Pair(Escape(k), v)
  {
    hide ReadLine, Escape, Trim, Entry, Strip, StripEnd, White;
    ReadEntry(k, v);
    StripKeepsEnd(v);
    EscapeTrimmed(k);
    TrimIff(Escape(k));
    EscapeKeepsLower(k);
    LowerOfLower(Escape(k));
    EscapePlainIff(k);
    hide AsciiLower;
  }

  lemma LowerOfLower(s: string)
    requires forall i :: 0 <= i < |s| ==> !('A' <= s[i] <= 'Z')
    ensures AsciiLower(s) == s
  {
  }

  /** The keys as they are read. */
  function Escaped(entries: Entries): (r: Entries)
    ensures |r| == |entries|
    ensures forall i :: 0 <= i < |r| ==> r[i] == (Escape(entries[i].0), entries[i].1)
  {
    if entries == [] then []
    else
      var e := entries[|entries| - 1];
      Escaped(entries[..|entries| - 1]) + [(Escape(e.0), e.1)]
  }

  lemma {:induction false} FeedEntries(st: State, entries: Entries, rest: string)
    requires st.section != [] && AllLoose(entries)
    ensures Feed(st, EntriesText(entries) + rest) == Feed(st.(out := Put(st.out, st.section, Escaped(entries))), rest)
    decreases |entries|
  {
    hide Feed, Entry, Loose, Step, Escape;
    if entries == [] {
      assert EntriesText(entries) + rest == rest;
    } else {
      var init, e := entries[..|entries| - 1], entries[|entries| - 1];
      assert EntriesText(entries) + rest == EntriesText(init) + (Entry(e.0, e.1) + "\n" + rest);
      FeedEntries(st, init, Entry(e.0, e.1) + "\n" + rest);
      var mid := st.(out := Put(st.out, st.section, Escaped(init)));
      StepEntry(mid, e.0, e.1);
      FeedLine(mid, Entry(e.0, e.1), rest);
      assert Escaped(entries)[..|entries| - 1] == Escaped(init);
    }
  }

  lemma StepEntry(st: State, k: string, v: string)
    requires st.section != [] && Loose(k, v)
    ensures '\n' !in Entry(k, v)
    ensures Step(st, Entry(k, v)) == st.(out := st.out[(st.section, Escape(k)) := v])
  {
    EscapeStaysOnLine(k);
    EscapeStaysOnLine(v);
    LooseReads(k, v);
    hide Loose, ReadLine, Escape;
  }

  /** A section as the printer lays it out; `note` is a comment line or nothing. */
  datatype Block = Block(gap: string, name: string, note: string, entries: Entries)

  function BlockText(b: Block): string {
    b.gap + "[" + b.name + "]\n" + b.note + EntriesText(b.entries)
  }

  function BlocksText(blocks: seq<Block>): string {
    if blocks == [] then "" else BlocksText(blocks[..|blocks| - 1]) + BlockText(blocks[|blocks| - 1])
  }

  function PutAll(out: Keys, blocks: seq<Block>): Keys {
    if blocks == [] then out
    else
      var b := blocks[|blocks| - 1];
      Put(PutAll(out, blocks[..|blocks| - 1]), b.name, b.entries)
  }

  /** Section names that are read back as written. */
  predicate CleanName(name: string) {
    name != [] && Trimmed(name) && AsciiLower(name) == name && '\n' !in name
  }

  predicate IsNote(note: string) {
    note == "" || (|note| >= 2 && note[0] == '#' && Find(note, '\n') == |note| - 1)
  }

  ghost predicate LooseBlock(b: Block) {
    && (b.gap == "" || b.gap == "\n")
    && CleanName(b.name) && IsNote(b.note) && AllLoose(b.entries)
  }

  lemma BracketLine(name: string)
    ensures ReadLine("[" + name + "]") == Header(AsciiLower(Trim(name)))
  {
    hide White, AsciiLower, Trim, Find, Unescape;
    var line := "[" + name + "]";
    WhiteFacts();
    TrimIff(line);
    assert Trim(line) == line && |line| >= 2;
    assert line[0] == '[' && line[|line| - 1] == ']' && line[1..|line| - 1] == name;
  }

  lemma LowerTrimIff(name: string)
    ensures AsciiLower(Trim(name)) == name <==> Trimmed(name) && AsciiLower(name) == name
  {
    hide White, AsciiLower, Trim, Trimmed;
    TrimIff(name);
    LowerChars(Trim(name));
  }

  /** A header line is read as the written name exactly when the name is trimmed and lower case. */
  lemma HeaderReadsBackIff(name: string)
    ensures ReadLine("[" + name + "]") == Header(name) <==> Trimmed(name) && AsciiLower(name) == name
  {
    hide ReadLine, White, AsciiLower, Trim, Trimmed;
    BracketLine(name);
    LowerTrimIff(name);
  }

  lemma FeedNote(st: State, note: string, rest: string)
    requires IsNote(note)
    ensures Feed(st, note + rest) == Feed(st, rest)
  {
    if note == "" {
      assert note + rest == rest;
    } else {
      var line := note[..|note| - 1];
      assert note + rest == line + "\n" + rest;
      WhiteFacts();
      FeedLine(st, line, rest);
      assert ReadLine(line) == Skip by {
        hide White, AsciiLower, Unescape, Find;
        assert TrimStart(line) == line;
      }
    }
  }

  lemma StepBlank(st: State)
    ensures Step(st, "") == st
  {
    assert Trim("") == "";
  }

  lemma FeedGap(st: State, rest: string)
    ensures Feed(st, "\n" + rest) == Feed(st, rest)
  {
    hide Feed, Step;
    FeedLine(st, "", rest);
    StepBlank(st);
    assert "" + "\n" + rest == "\n" + rest;
  }

  lemma FeedBlock(st: State, b: Block, rest: string)
    requires LooseBlock(b)
    ensures Feed(st, BlockText(b) + rest) == Feed(State(b.name, Put(st.out, b.name, Escaped(b.entries))), rest)
  {
    hide Feed, AllLoose, IsNote, Step, ReadLine, EntriesText, Put, Escaped;
    var entries, header := EntriesText(b.entries), "[" + b.name + "]";
    var tail := header + "\n" + (b.note + (entries + rest));
    assert BlockText(b) + rest == b.gap + tail;
    if b.gap == "" {
      assert b.gap + tail == tail;
    } else {
      FeedGap(st, tail);
    }
    HeaderReadsBackIff(b.name);
    FeedLine(st, header, b.note + (entries + rest));
    StepHeader(st, b.name);
    var at := st.(section := b.name);
    FeedNote(at, b.note, entries + rest);
    FeedEntries(at, b.entries, rest);
  }

  lemma StepHeader(st: State, name: string)
    requires CleanName(name)
    ensures Step(st, "[" + name + "]") == st.(section := name)
  {
    HeaderReadsBackIff(name);
    hide ReadLine;
  }

  ghost predicate AllLooseBlocks(blocks: seq<Block>) {
    forall i :: 0 <= i < |blocks| ==> LooseBlock(blocks[i])
  }

  /** The blocks with their keys as they are read. */
  function EscapedBlocks(blocks: seq<Block>): (r: seq<Block>)
    ensures |r| == |blocks|
  {
    if blocks == [] then []
    else
      var b := blocks[|blocks| - 1];
      EscapedBlocks(blocks[..|blocks| - 1]) + [b.(entries := Escaped(b.entries))]
  }

  lemma {:induction false} FeedBlocks(st: State, blocks: seq<Block>, rest: string) returns (section: string)
    requires AllLooseBlocks(blocks)
    ensures Feed(st, BlocksText(blocks) + rest) == Feed(State(section, PutAll(st.out, EscapedBlocks(blocks))), rest)
    decreases |blocks|
  {
    hide Feed, BlockText, LooseBlock, Put, Escaped;
    if blocks == [] {
      section := st.section;
      assert BlocksText(blocks) + rest == rest;
    } else {
      var init, b := blocks[..|blocks| - 1], blocks[|blocks| - 1];
      assert BlocksText(blocks) + rest == BlocksText(init) + (BlockText(b) + rest);
      var s := FeedBlocks(st, init, BlockText(b) + rest);
      FeedBlock(State(s, PutAll(st.out, EscapedBlocks(init))), b, rest);
      section := b.name;
      var all := EscapedBlocks(blocks);
      assert all[..|all| - 1] == EscapedBlocks(init);
    }
  }

  // --------------------------------------------------------------- lookups

  function At(m: Keys, section: string, k: string): Option<string> {
    if (section, k) in m then Some(m[(section, k)]) else None
  }

  /** The last value an entry list gives a key. */
  function Look(entries: Entries, k: string): Option<string> {
    if entries == [] then None
    else
      var e := entries[|entries| - 1];
      if e.0 == k then Some(e.1) else Look(entries[..|entries| - 1], k)
  }

  function LookAll(blocks: seq<Block>, section: string, k: string): Option<string> {
    if blocks == [] then None
    else
      var b := blocks[|blocks| - 1];
      if b.name == section && Look(b.entries, k).Some? then Look(b.entries, k)
      else LookAll(blocks[..|blocks| - 1], section, k)
  }

  lemma {:induction false} PutLook(out: Keys, name: string, entries: Entries, section: string, k: string)
    ensures At(Put(out, name, entries), section, k) ==
            if name == section && Look(entries, k).Some? then Look(entries, k) else At(out, section, k)
    decreases |entries|
  {
    if entries != [] {
      PutLook(out, name, entries[..|entries| - 1], section, k);
    }
  }

  lemma {:induction false} PutAllLook(blocks: seq<Block>, section: string, k: string)
    ensures At(PutAll(map[], blocks), section, k) == LookAll(blocks, section, k)
    decreases |blocks|
  {
    if blocks != [] {
      var init, b := blocks[..|blocks| - 1], blocks[|blocks| - 1];
      PutAllLook(init, section, k);
      PutLook(PutAll(map[], init), b.name, b.entries, section, k);
    }
  }

  lemma {:induction false} LookAllAppend(a: seq<Block>, b: seq<Block>, section: string, k: string)
    ensures LookAll(a + b, section, k) == if LookAll(b, section, k).Some? then LookAll(b, section, k) else LookAll(a, section, k)
    decreases |b|
  {
    if b == [] {
      assert a + b == a;
    } else {
      LookAllAppend(a, b[..|b| - 1], section, k);
      assert (a + b)[..|a + b| - 1] == a + b[..|b| - 1];
    }
  }

  lemma {:induction false} LookFrom(entries: Entries, k: string)
    ensures Look(entries, k).Some? ==> exists i :: 0 <= i < |entries| && entries[i] == (k, Look(entries, k).value)
    ensures Look(entries, k).None? ==> forall i :: 0 <= i < |entries| ==> entries[i].0 != k
    decreases |entries|
  {
    if entries != [] {
      var init, e := entries[..|entries| - 1], entries[|entries| - 1];
      LookFrom(init, k);
      if e.0 == k {
        assert entries[|entries| - 1] == (k, e.1);
      } else if Look(entries, k).Some? {
        var i :| 0 <= i < |init| && init[i] == (k, Look(init, k).value);
        assert entries[i] == init[i];
      }
    }
  }

  /** A key that occurs once is found there. */
  lemma LookUnique(entries: Entries, i: nat)
    requires i < |entries| && forall j :: 0 <= j < |entries| && entries[j].0 == entries[i].0 ==> j == i
    ensures Look(entries, entries[i].0) == Some(entries[i].1)
  {
    LookFrom(entries, entries[i].0);
  }

  lemma EscapeInjective(a: string, b: string)
    requires Escape(a) == Escape(b)
    ensures a == b
  {
    EscapeRoundTrip(a);
    EscapeRoundTrip(b);
  }

  /** Escaped entries are found under escaped keys, and under no others. */
  lemma {:induction false} LookEscaped(entries: Entries, k: string)
    ensures Look(Escaped(entries), Escape(k)) == Look(entries, k)
    decreases |entries|
  {
    if entries != [] {
      hide Escape;
      var init, e := entries[..|entries| - 1], entries[|entries| - 1];
      LookEscaped(init, k);
      assert Escaped(entries)[..|entries| - 1] == Escaped(init);
      if Escape(e.0) == Escape(k) {
        EscapeInjective(e.0, k);
      }
    }
  }

  lemma {:induction false} FoundEscaped(entries: Entries, k: string)
    requires Look(Escaped(entries), k).Some?
    ensures exists id :: Escape(id) == k && Look(entries, id) == Look(Escaped(entries), k)
  {
    LookFrom(Escaped(entries), k);
    hide Escape;
    var i :| 0 <= i < |entries| && Escaped(entries)[i] == (k, Look(Escaped(entries), k).value);
    LookEscaped(entries, entries[i].0);
  }

  lemma {:induction false} LookAllEscaped(blocks: seq<Block>, section: string, k: string)
    ensures LookAll(EscapedBlocks(blocks), section, Escape(k)) == LookAll(blocks, section, k)
    decreases |blocks|
  {
    if blocks != [] {
      hide Escape, Escaped;
      var init, b := blocks[..|blocks| - 1], blocks[|blocks| - 1];
      LookAllEscaped(init, section, k);
      LookEscaped(b.entries, k);
      var all := EscapedBlocks(blocks);
      assert all[..|all| - 1] == EscapedBlocks(init);
    }
  }

  lemma {:induction false} FoundAllEscaped(blocks: seq<Block>, section: string, k: string)
    requires LookAll(EscapedBlocks(blocks), section, k).Some?
    ensures exists id :: Escape(id) == k && LookAll(blocks, section, id).Some?
    decreases |blocks|
  {
    hide Escape, Escaped;
    var init, b := blocks[..|blocks| - 1], blocks[|blocks| - 1];
    var all := EscapedBlocks(blocks);
    assert all[..|all| - 1] == EscapedBlocks(init);
    if b.name == section && Look(Escaped(b.entries), k).Some? {
      FoundEscaped(b.entries, k);
      var id :| Escape(id) == k && Look(b.entries, id) == Look(Escaped(b.entries), k);
      assert LookAll(blocks, section, id).Some?;
    } else {
      FoundAllEscaped(init, section, k);
      var id :| Escape(id) == k && LookAll(init, section, id).Some?;
      assert LookAll(blocks, section, id).Some?;
    }
  }

  // ------------------------------------------------------- what can be read

  ghost predicate GoodKeys(m: Keys) {
    forall k :: k in m ==> CleanName(k.0) && GoodKey(k.1)
  }

  lemma GoodStep(st: State, raw: string)
    requires '\n' !in raw && GoodKeys(st.out) && (st.section == [] || CleanName(st.section))
    ensures var n := Step(st, raw); GoodKeys(n.out) && (n.section == [] || CleanName(n.section))
  {
    KeyFacts(raw);
    hide GoodKey, White, AsciiLower, Unescape, Trim, Trimmed, Find;
    if ReadLine(raw).Header? {
      var line := Trim(raw);
      var inner := line[1..|line| - 1];
      TrimIff(inner);
      LowerChars(Trim(inner));
      TrimIsPart(raw);
      NewlineStays(inner);
    }
  }

  /** Whatever the text, sections that are read have clean names and keys are good. */
  lemma {:induction false} GoodFeed(st: State, text: string)
    requires GoodKeys(st.out) && (st.section == [] || CleanName(st.section))
    ensures GoodKeys(Feed(st, text).out)
    decreases |text|
  {
    hide GoodKeys, CleanName, Step;
    if text != [] {
      var i := Find(text, '\n');
      if i == |text| {
        GoodStep(st, text);
      } else {
        var raw := StripCr(text[..i]);
        assert forall k :: 0 <= k < |raw| ==> raw[k] == text[k];
        GoodStep(st, raw);
        GoodFeed(Step(st, raw), text[i + 1..]);
      }
    }
  }
}
