/**
 What loading makes of any text, key by key: the value a text stands for, or the default
 if the key is missing or its text is not an accepted one.
 */
module Defaults {
  import opened Common
  import opened Text
  import opened Ini
  import opened IniReading
  import opened Values
  import opened Basics
  import opened Preferences
  import opened Legacy
  import opened Whole = Settings

  // ------------------------------------------------------- accepted words

  function FlagWords(b: bool): seq<string> {
    if b then ["1", "true", "yes", "on"] else ["0", "false", "no", "off"]
  }

  function ThemeWords(t: Theme): seq<string> {
    match t
    case SystemTheme => ["system"]
    case Light => ["light", "hell"]
    case Dark => ["dark", "dunkel"]
  }

  function SpeedWords(s: Speed): seq<string> {
    match s
    case High => ["high"]
    case Normal => ["normal"]
    case Low => ["low"]
    case Paused => ["paused"]
  }

  /** An empty text means the language of the system too. */
  function LanguageWords(l: Language): seq<string> {
    match l
    case SystemLanguage => ["system", ""]
    case De => ["de", "german"]
    case En => ["en", "english"]
  }

  function SmoothingWords(s: Smoothing): seq<string> {
    match s
    case Sharp => ["sharp", "scharf"]
    case Standard => ["standard", "normal"]
    case Smooth => ["smooth", "weich"]
  }

  function RenderWords(r: Render): seq<string> {
    match r
    case Auto => ["auto", "automatic", "automatisch", "gpu", "true", "on"]
    case Compatibility => ["compatibility", "kompatibilitaet", "opengl", "gl"]
    case Software => ["software", "cpu", "warp", "false", "off"]
  }

  /** The text is one of these words, up to the case of ASCII letters. */
  predicate Says(text: string, words: seq<string>) {
    exists j :: 0 <= j < |words| && SameText(text, words[j])
  }

  lemma SaysLower(text: string, words: seq<string>)
    requires forall j :: 0 <= j < |words| ==> IsLower(words[j])
    ensures Says(text, words) <==> AsciiLower(text) in words
  {
    hide AsciiLower, SameText;
    forall j | 0 <= j < |words|
      ensures SameText(text, words[j]) <==> AsciiLower(text) == words[j]
    {
      SameTextIff(text, words[j]);
      LowerIsSame(words[j]);
    }
    if AsciiLower(text) in words {
      var j :| 0 <= j < |words| && words[j] == AsciiLower(text);
      assert SameText(text, words[j]);
    }
  }

  lemma FlagMeans(text: string, b: bool)
    ensures Says(text, FlagWords(b)) <==> ParseBool(text) == Some(b)
  {
    hide AsciiLower, Says;
    SaysLower(text, FlagWords(b));
  }

  lemma ThemeMeans(text: string, t: Theme)
    ensures Says(text, ThemeWords(t)) <==> ThemeFrom(text) == Some(t)
  {
    hide AsciiLower, Says;
    SaysLower(text, ThemeWords(t));
  }

  lemma SpeedMeans(text: string, s: Speed)
    ensures Says(text, SpeedWords(s)) <==> SpeedFrom(text) == Some(s)
  {
    hide AsciiLower, Says;
    SaysLower(text, SpeedWords(s));
  }

  lemma LanguageMeans(text: string, l: Language)
    ensures Says(text, LanguageWords(l)) <==> LanguageFrom(text) == Some(l)
  {
    hide AsciiLower, Says;
    SaysLower(text, LanguageWords(l));
  }

  lemma SmoothingMeans(text: string, s: Smoothing)
    ensures Says(text, SmoothingWords(s)) <==> SmoothingFrom(text) == Some(s)
  {
    hide AsciiLower, Says;
    SaysLower(text, SmoothingWords(s));
  }

  lemma RenderMeans(text: string, r: Render)
    ensures Says(text, RenderWords(r)) <==> RenderFrom(text) == Some(r)
  {
    hide AsciiLower, Says;
    SaysLower(text, RenderWords(r));
    match r
    case Auto =>
    case Compatibility =>
    case Software =>
  }

  /** The setting has a text that is a word for something. */
  ghost predicate Accepted<T(!new)>(setting: Option<string>, words: T -> seq<string>) {
    setting.Some? && exists u :: Says(setting.value, words(u))
  }

  /** What an accepted text stands for, else the default. */
  ghost predicate Chosen<T(!new)>(v: T, setting: Option<string>, words: T -> seq<string>, d: T) {
    if Accepted(setting, words) then Says(setting.value, words(v)) else v == d
  }

  /** The first of two settings with an accepted text counts. */
  ghost predicate ChosenFirst<T(!new)>(v: T, setting: Option<string>, other: Option<string>, words: T -> seq<string>, d: T) {
    if Accepted(setting, words) then Says(setting.value, words(v)) else Chosen(v, other, words, d)
  }

  lemma ChosenIff<T(!new)>(v: T, setting: Option<string>, words: T -> seq<string>, d: T, meant: Option<T>)
    requires setting.Some? ==> forall u :: Says(setting.value, words(u)) <==> meant == Some(u)
    requires setting.None? ==> meant.None?
    ensures Chosen(v, setting, words, d) <==> v == Choice(meant, d)
    ensures Accepted(setting, words) <==> meant.Some?
  {
    hide Says;
    if meant.Some? {
      assert Says(setting.value, words(meant.value));
    }
  }

  // -------------------------------------------------------------- numbers

  function Zeros(n: nat): string {
    if n == 0 then "" else "0" + Zeros(n - 1)
  }

  /** The text is a 32-bit number: a plus sign if one likes, any zeros, and its decimal digits. */
  ghost predicate IsNumeral(text: string, n: nat) {
    && n <= 0xFFFF_FFFF
    && exists zeros: nat :: text == Zeros(zeros) + Dec(n) || text == "+" + Zeros(zeros) + Dec(n)
  }

  ghost predicate IsDigits(text: string, n: nat) {
    exists zeros: nat :: text == Zeros(zeros) + Dec(n)
  }

  lemma {:induction false} ZerosParse(zeros: nat, s: string)
    ensures ParseDigits(Zeros(zeros) + s) == ParseDigits(s)
    decreases zeros, |s|
  {
    if s == [] {
      assert Zeros(zeros) + s == Zeros(zeros);
      OnlyZeros(zeros);
    } else {
      ZerosParse(zeros, s[..|s| - 1]);
      assert (Zeros(zeros) + s)[..|Zeros(zeros) + s| - 1] == Zeros(zeros) + s[..|s| - 1];
    }
  }

  lemma {:induction false} ZerosSnoc(zeros: nat)
    ensures Zeros(zeros + 1) == Zeros(zeros) + "0"
    decreases zeros
  {
    if zeros > 0 {
      ZerosSnoc(zeros - 1);
    }
  }

  lemma {:induction false} OnlyZeros(zeros: nat)
    ensures ParseDigits(Zeros(zeros)) == Some(0)
    decreases zeros
  {
    if zeros > 0 {
      OnlyZeros(zeros - 1);
      ZerosSnoc(zeros - 1);
      assert Zeros(zeros)[..|Zeros(zeros)| - 1] == Zeros(zeros - 1);
    }
  }

  /** Digits are read as the number whose digits they are, zeros in front aside. */
  lemma {:induction false} DigitsMean(s: string, n: nat)
    requires s != []
    ensures ParseDigits(s) == Some(n) <==> IsDigits(s, n)
    decreases |s|
  {
    if IsDigits(s, n) {
      var zeros: nat :| s == Zeros(zeros) + Dec(n);
      ZerosParse(zeros, Dec(n));
      DigitsRoundTrip(n);
    }
    if ParseDigits(s) == Some(n) {
      DigitsAre(s, n);
    }
  }

  lemma LastDigit(s: string, n: nat) returns (m: nat, d: nat)
    requires s != [] && ParseDigits(s) == Some(n)
    ensures d < 10 && n == 10 * m + d && s == s[..|s| - 1] + [Digit(d)] && ParseDigits(s[..|s| - 1]) == Some(m)
  {
    m, d := ParseDigits(s[..|s| - 1]).value, s[|s| - 1] as int - '0' as int;
  }

  lemma DecSnoc(m: nat, d: nat)
    requires d < 10
    ensures Dec(10 * m + d) == if m == 0 then [Digit(d)] else Dec(m) + [Digit(d)]
    ensures Dec(0) == "0"
  {
    assert (10 * m + d) / 10 == m && (10 * m + d) % 10 == d;
  }

  lemma {:induction false} DigitsAre(s: string, n: nat)
    requires s != [] && ParseDigits(s) == Some(n)
    ensures IsDigits(s, n)
    decreases |s|
  {
    hide Dec, Zeros, ParseDigits;
    var m, d := LastDigit(s, n);
    var init := s[..|s| - 1];
    DecSnoc(m, d);
    if init == [] {
      NoDigits();
      NoZeros(s);
      assert s == Zeros(0) + Dec(n);
    } else {
      DigitsAre(init, m);
      var zeros: nat :| init == Zeros(zeros) + Dec(m);
      if m == 0 {
        ZerosSnoc(zeros);
        assert s == Zeros(zeros + 1) + Dec(n);
      } else {
        assert s == Zeros(zeros) + Dec(n);
      }
    }
  }

  lemma NoDigits()
    ensures ParseDigits([]) == Some(0)
  {
  }

  lemma NoZeros(s: string)
    ensures Zeros(0) + s == s
  {
  }

  lemma {:induction false} NoSignInDigits(zeros: nat, n: nat)
    ensures Zeros(zeros) + Dec(n) != "" && (Zeros(zeros) + Dec(n))[0] != '+'
    decreases zeros
  {
  }

  /** `str::parse::<u32>` accepts exactly the numerals. */
  lemma NumeralMeans(text: string, n: nat)
    ensures IsNumeral(text, n) <==> ParseU32(text) == Some(n)
  {
    hide Dec, Zeros, ParseDigits, IsDigits;
    if Unsigned(text) != [] {
      DigitsMean(Unsigned(text), n);
    }
    SignedIff(text, n);
  }

  function Unsigned(text: string): string {
    if text != [] && text[0] == '+' then text[1..] else text
  }

  lemma SignedIff(text: string, n: nat)
    ensures IsNumeral(text, n) <==> n <= 0xFFFF_FFFF && Unsigned(text) != [] && IsDigits(Unsigned(text), n)
  {
    hide Dec, Zeros, Unsigned;
    if IsNumeral(text, n) {
      var zeros: nat :| text == Zeros(zeros) + Dec(n) || text == "+" + Zeros(zeros) + Dec(n);
      UnsignedDigits(zeros, n);
    }
    if Unsigned(text) != [] && IsDigits(Unsigned(text), n) {
      var zeros: nat :| Unsigned(text) == Zeros(zeros) + Dec(n);
      SignOrNot(text, Zeros(zeros), Dec(n));
    }
  }

  lemma UnsignedDigits(zeros: nat, n: nat)
    ensures var digits := Zeros(zeros) + Dec(n);
            digits != [] && Unsigned(digits) == digits && Unsigned("+" + Zeros(zeros) + Dec(n)) == digits
  {
    hide Dec, Zeros;
    NoSignInDigits(zeros, n);
    assert ("+" + Zeros(zeros) + Dec(n))[1..] == Zeros(zeros) + Dec(n);
  }

  lemma SignOrNot(text: string, a: string, b: string)
    requires Unsigned(text) == a + b
    ensures text == a + b || text == "+" + a + b
  {
    if text != [] && text[0] == '+' {
      assert text == "+" + text[1..];
    }
  }

  /** Whole seconds, brought into 10 to 600; 60 if the text is no number. */
  ghost predicate SecondsMean(v: nat, setting: Option<string>) {
    if setting.Some? && exists n: nat :: IsNumeral(setting.value, n) then
      exists n: nat :: IsNumeral(setting.value, n) && v == if n < 10 then 10 else if n > 600 then 600 else n
    else v == 60
  }

  lemma SecondsIff(v: nat, setting: Option<string>)
    ensures SecondsMean(v, setting) <==> v == ReadSeconds(setting)
  {
    hide IsNumeral, ParseU32;
    if setting.Some? {
      forall n: nat
        ensures IsNumeral(setting.value, n) <==> ParseU32(setting.value) == Some(n)
      {
        NumeralMeans(setting.value, n);
      }
      if ParseU32(setting.value).Some? {
        assert IsNumeral(setting.value, ParseU32(setting.value).value);
      }
    }
  }

  /** A float that lies in the range, else the default. */
  ghost predicate RealMeans(env: Env, v: real, setting: Option<string>, low: real, high: real, d: real) {
    if setting.Some? && exists x :: env.read(setting.value) == Some(x) && low <= x <= high then env.read(setting.value) == Some(v)
    else v == d
  }

  lemma RealIff(env: Env, v: real, setting: Option<string>, low: real, high: real, d: real)
    ensures RealMeans(env, v, setting, low, high, d) <==> v == ReadReal(env, setting, low, high, d)
  {
  }

  predicate IsX(c: char) {
    c == 'x' || c == 'X'
  }

  /** Two floats around the first x. */
  ghost predicate IsSize(env: Env, text: string, w: Window) {
    exists a: string, x: char, b: string :: SizeCut(text, a, x, b) && env.read(Trim(a)) == Some(w.width) && env.read(Trim(b)) == Some(w.height)
  }

  predicate SizeCut(text: string, a: string, x: char, b: string) {
    text == a + [x] + b && IsX(x) && forall i :: 0 <= i < |a| ==> !IsX(a[i])
  }

  /** The stored size, brought into its range, if it is to be remembered and is a size; else 1100 by 720. */
  ghost predicate WindowMeans(env: Env, v: Window, remember: bool, setting: Option<string>) {
    if remember && setting.Some? && exists w :: IsSize(env, setting.value, w) then
      exists w :: IsSize(env, setting.value, w) && Brought(v.width, w.width, 200.0, 16384.0) && Brought(v.height, w.height, 150.0, 16384.0)
    else v == Window(1100.0, 720.0)
  }

  predicate Brought(v: real, x: real, low: real, high: real) {
    low <= v <= high && (low <= x <= high ==> v == x) && (x < low ==> v == low) && (x > high ==> v == high)
  }

  lemma LowerX(c: char)
    ensures IsX(c) <==> LowerChar(c) == 'x'
  {
  }

  lemma SizeCutIff(text: string, a: string, x: char, b: string)
    ensures var i := Find(AsciiLower(text), 'x');
            SizeCut(text, a, x, b) <==> i < |text| && a == text[..i] && x == text[i] && b == text[i + 1..]
  {
    hide Find, LowerChar, IsX, AsciiLower, SizeCut;
    var l := AsciiLower(text);
    var i := Find(l, 'x');
    forall k | 0 <= k < |text|
      ensures IsX(text[k]) <==> l[k] == 'x'
    {
      LowerX(text[k]);
    }
    if SizeCut(text, a, x, b) {
      SizeCutAt(text, a, x, b);
      FindAt(l, 'x', |a|);
    }
    if i < |text| {
      SizeCutHere(text, i);
    }
  }

  lemma SizeCutAt(text: string, a: string, x: char, b: string)
    requires SizeCut(text, a, x, b)
    ensures |a| < |text| && a == text[..|a|] && x == text[|a|] && b == text[|a| + 1..]
    ensures IsX(text[|a|]) && forall k :: 0 <= k < |a| ==> !IsX(text[k])
  {
    hide IsX;
    assert forall k :: 0 <= k < |a| ==> text[k] == a[k];
  }

  lemma SizeCutHere(text: string, i: nat)
    requires i < |text| && IsX(text[i]) && forall k :: 0 <= k < i ==> !IsX(text[k])
    ensures SizeCut(text, text[..i], text[i], text[i + 1..])
  {
    hide IsX;
    assert text == text[..i] + [text[i]] + text[i + 1..];
  }

  lemma SizeIff(env: Env, text: string, w: Window)
    ensures IsSize(env, text, w) <==> ParseWindow(env, text) == Some(w)
  {
    hide Find, AsciiLower, Trim, SizeCut;
    var i := Find(AsciiLower(text), 'x');
    LowerLength(text);
    if i < |text| {
      SizeCutIff(text, text[..i], text[i], text[i + 1..]);
    }
    if a: string, x: char, b: string :| SizeCut(text, a, x, b) && env.read(Trim(a)) == Some(w.width) && env.read(Trim(b)) == Some(w.height) {
      SizeCutIff(text, a, x, b);
    }
  }

  lemma LowerLength(s: string)
    ensures |AsciiLower(s)| == |s|
  {
  }

  lemma WindowIff(env: Env, v: Window, remember: bool, setting: Option<string>)
    ensures WindowMeans(env, v, remember, setting) <==> v == if remember then ReadWindow(env, setting) else DEFAULT_WINDOW
  {
    hide IsSize, ParseWindow;
    if setting.Some? {
      forall w: Window
        ensures IsSize(env, setting.value, w) <==> ParseWindow(env, setting.value) == Some(w)
      {
        SizeIff(env, setting.value, w);
      }
      if ParseWindow(env, setting.value).Some? {
        assert IsSize(env, setting.value, ParseWindow(env, setting.value).value);
      }
    }
  }

  // ---------------------------------------------------------------- names

  const PAGES: seq<string> := ["processes", "performance", "apphistory", "startup", "users", "details", "services"]

  const CPU_MODES: seq<string> := ["overall", "logical"]

  /** The text, white space around it aside, is one of these words. */
  ghost predicate NameMeans(v: string, setting: Option<string>, words: seq<string>, d: string) {
    if setting.Some? && Says(Trim(setting.value), words) then v in words && SameText(Trim(setting.value), v)
    else v == d
  }

  lemma PageIff(v: string, setting: Option<string>)
    ensures NameMeans(v, setting, PAGES, "processes") <==> v == ReadPage(setting)
  {
    hide AsciiLower, Trim, Says, SameText;
    if setting.Some? {
      PagesAre(AsciiLower(Trim(setting.value)));
      PagesAre(v);
      SaysLower(Trim(setting.value), PAGES);
      if v in PAGES {
        SameTextIff(Trim(setting.value), v);
        LowerIsSame(v);
      }
    }
  }

  lemma PagesAre(s: string)
    ensures s in PAGES <==> IsPage(s)
    ensures forall i :: 0 <= i < |PAGES| ==> IsLower(PAGES[i])
  {
  }

  lemma CpuModeIff(v: string, setting: Option<string>)
    ensures NameMeans(v, setting, CPU_MODES, "overall") <==> v == ReadCpuMode(setting)
  {
    hide AsciiLower, Trim, Says, SameText;
    if setting.Some? {
      CpuModesAre(AsciiLower(Trim(setting.value)));
      CpuModesAre(v);
      SaysLower(Trim(setting.value), CPU_MODES);
      if v in CPU_MODES {
        SameTextIff(Trim(setting.value), v);
        LowerIsSame(v);
      }
    }
  }

  lemma CpuModesAre(s: string)
    ensures s in CPU_MODES <==> IsCpuMode(s)
    ensures forall i :: 0 <= i < |CPU_MODES| ==> IsLower(CPU_MODES[i])
  {
  }

  /** Letters, digits, underscores and spaces, at most 32 bytes of them. */
  predicate IsEngineName(env: Env, s: string) {
    1 <= |s| && |Utf8(s)| <= 32 && forall i :: 0 <= i < |s| ==> env.alnum(s[i]) || s[i] in "_ "
  }

  ghost predicate GpuModeMeans(env: Env, v: string, setting: Option<string>) {
    if setting.Some? && IsEngineName(env, Trim(setting.value)) then IsCore(setting.value, v) else v == "overall"
  }

  lemma GpuModeIff(env: Env, v: string, setting: Option<string>)
    ensures GpuModeMeans(env, v, setting) <==> v == ReadGpuMode(env, setting)
  {
    hide Trim, IsCore, Utf8, Utf8Len;
    if setting.Some? {
      TrimIsCore(setting.value, v);
      Utf8LenIs(Trim(setting.value));
    }
  }

  ghost predicate PerfKeyMeans(v: string, setting: Option<string>) {
    if setting.Some? && 1 <= |Trim(setting.value)| && |Utf8(Trim(setting.value))| <= 64 then IsCore(setting.value, v) else v == "cpu"
  }

  lemma PerfKeyIff(v: string, setting: Option<string>)
    ensures PerfKeyMeans(v, setting) <==> v == ReadPerfKey(setting)
  {
    hide Trim, IsCore, Utf8, Utf8Len;
    if setting.Some? {
      TrimIsCore(setting.value, v);
      Utf8LenIs(Trim(setting.value));
    }
  }

  // ------------------------------------------------------ the whole section

  /** The switches: on unless said otherwise for saving and remembering, off for the others. */
  ghost predicate FlagsMean(m: Keys, b: Basics) {
    && Chosen(b.saveConfig, Setting(m, "save_config"), FlagWords, true)
    && Chosen(b.rememberWindow, Setting(m, "remember_window"), FlagWords, true)
    && Chosen(b.alwaysOnTop, Setting(m, "always_on_top"), FlagWords, false)
    && Chosen(b.sidebarCollapsed, Setting(m, "sidebar_collapsed"), FlagWords, false)
    && Chosen(b.kernelTimes, Setting(m, "show_kernel_times"), FlagWords, false)
    && Chosen(b.wifiDetails, Setting(m, "wifi_details"), FlagWords, false)
    && Chosen(b.closeToTray, Setting(m, "close_to_tray"), FlagWords, false)
    && Chosen(b.startWithWindows, Setting(m, "start_with_windows"), FlagWords, false)
    && Chosen(b.startElevated, Setting(m, "start_elevated"), FlagWords, false)
  }

  /** The choices; the tree view went by two names before, and the renderer has a second one. */
  ghost predicate ChoicesMean(m: Keys, b: Basics) {
    && Chosen(b.language, Setting(m, "language"), LanguageWords, SystemLanguage)
    && Chosen(b.theme, Setting(m, "theme"), ThemeWords, SystemTheme)
    && Chosen(b.updateSpeed, Setting(m, "update_speed"), SpeedWords, Normal)
    && Chosen(b.smoothing, Setting(m, "text_smoothing"), SmoothingWords, Sharp)
    && ChosenFirst(b.render, Setting(m, "render_mode"), Setting(m, "gpu_acceleration"), RenderWords, Auto)
    && (if Accepted(Setting(m, "details_tree_hierarchical"), FlagWords)
        then Says(Setting(m, "details_tree_hierarchical").value, FlagWords(b.treeHierarchical))
        else ChosenFirst(b.treeHierarchical, Setting(m, "details_tree_view"), Setting(m, "process_tree_view"), FlagWords, false))
  }

  ghost predicate RangesMean(env: Env, m: Keys, b: Basics) {
    && SecondsMean(b.graphSeconds, Setting(m, "graph_seconds"))
    && RealMeans(env, b.uiZoom, Setting(m, "ui_zoom"), 0.5, 3.0, 1.0)
    && RealMeans(env, b.perfCardWidth, Setting(m, "perf_card_width"), 100.0, 2000.0, 252.0)
    && WindowMeans(env, b.window, b.rememberWindow, Setting(m, "window_size"))
  }

  ghost predicate NamesMean(env: Env, m: Keys, b: Basics) {
    && NameMeans(b.startPage, Setting(m, "default_start_page"), PAGES, "processes")
    && NameMeans(b.cpuMode, Setting(m, "cpu_graph_mode"), CPU_MODES, "overall")
    && GpuModeMeans(env, b.gpuMode, Setting(m, "gpu_graph_mode"))
    && PerfKeyMeans(b.perfKey, Setting(m, "perf_selected_key"))
  }

  ghost predicate BasicsMean(env: Env, m: Keys, b: Basics) {
    FlagsMean(m, b) && ChoicesMean(m, b) && RangesMean(env, m, b) && NamesMean(env, m, b)
  }

  lemma FlagIff(v: bool, setting: Option<string>, d: bool)
    ensures Chosen(v, setting, FlagWords, d) <==> v == Flag(setting, d)
    ensures Accepted(setting, FlagWords) <==> OptBool(setting).Some?
    ensures setting.Some? ==> (Says(setting.value, FlagWords(v)) <==> OptBool(setting) == Some(v))
  {
    hide Says, FlagWords, ParseBool, Chosen, Accepted;
    if setting.Some? {
      forall u: bool
        ensures Says(setting.value, FlagWords(u)) <==> ParseBool(setting.value) == Some(u)
      {
        FlagMeans(setting.value, u);
      }
    }
    ChosenIff(v, setting, FlagWords, d, OptBool(setting));
  }

  lemma FlagsIff(env: Env, m: Keys, b: Basics)
    ensures var n := ReadBasics(env, m);
            FlagsMean(m, b) <==>
              && b.saveConfig == n.saveConfig && b.rememberWindow == n.rememberWindow && b.alwaysOnTop == n.alwaysOnTop
              && b.sidebarCollapsed == n.sidebarCollapsed && b.kernelTimes == n.kernelTimes && b.wifiDetails == n.wifiDetails
              && b.closeToTray == n.closeToTray && b.startWithWindows == n.startWithWindows && b.startElevated == n.startElevated
  {
    hide Flag, Chosen, Accepted, OptBool, Says, FlagWords, Setting, ReadLanguage, ReadTheme, ReadSpeed, ReadSmoothing,
         ReadRender, ReadTree, ReadSeconds, ReadReal, ReadWindow, ReadPage, ReadCpuMode, ReadGpuMode, ReadPerfKey;
    FlagIff(b.saveConfig, Setting(m, "save_config"), true);
    FlagIff(b.rememberWindow, Setting(m, "remember_window"), true);
    FlagIff(b.alwaysOnTop, Setting(m, "always_on_top"), false);
    FlagIff(b.sidebarCollapsed, Setting(m, "sidebar_collapsed"), false);
    FlagIff(b.kernelTimes, Setting(m, "show_kernel_times"), false);
    FlagIff(b.wifiDetails, Setting(m, "wifi_details"), false);
    FlagIff(b.closeToTray, Setting(m, "close_to_tray"), false);
    FlagIff(b.startWithWindows, Setting(m, "start_with_windows"), false);
    FlagIff(b.startElevated, Setting(m, "start_elevated"), false);
  }

  lemma LanguageIff(v: Language, setting: Option<string>)
    ensures Chosen(v, setting, LanguageWords, SystemLanguage) <==> v == ReadLanguage(setting)
  {
    hide Says, LanguageWords, LanguageFrom, Chosen, Accepted;
    if setting.Some? {
      forall u: Language
        ensures Says(setting.value, LanguageWords(u)) <==> LanguageFrom(setting.value) == Some(u)
      {
        LanguageMeans(setting.value, u);
      }
    }
    ChosenIff(v, setting, LanguageWords, SystemLanguage, if setting.Some? then LanguageFrom(setting.value) else None);
  }

  lemma ThemeIff(v: Theme, setting: Option<string>)
    ensures Chosen(v, setting, ThemeWords, SystemTheme) <==> v == ReadTheme(setting)
  {
    hide Says, ThemeWords, ThemeFrom, Chosen, Accepted;
    if setting.Some? {
      forall u: Theme
        ensures Says(setting.value, ThemeWords(u)) <==> ThemeFrom(setting.value) == Some(u)
      {
        ThemeMeans(setting.value, u);
      }
    }
    ChosenIff(v, setting, ThemeWords, SystemTheme, if setting.Some? then ThemeFrom(setting.value) else None);
  }

  lemma SpeedIff(v: Speed, setting: Option<string>)
    ensures Chosen(v, setting, SpeedWords, Normal) <==> v == ReadSpeed(setting)
  {
    hide Says, SpeedWords, SpeedFrom, Chosen, Accepted;
    if setting.Some? {
      forall u: Speed
        ensures Says(setting.value, SpeedWords(u)) <==> SpeedFrom(setting.value) == Some(u)
      {
        SpeedMeans(setting.value, u);
      }
    }
    ChosenIff(v, setting, SpeedWords, Normal, if setting.Some? then SpeedFrom(setting.value) else None);
  }

  lemma SmoothingIff(v: Smoothing, setting: Option<string>)
    ensures Chosen(v, setting, SmoothingWords, Sharp) <==> v == ReadSmoothing(setting)
  {
    hide Says, SmoothingWords, SmoothingFrom, Chosen, Accepted;
    if setting.Some? {
      forall u: Smoothing
        ensures Says(setting.value, SmoothingWords(u)) <==> SmoothingFrom(setting.value) == Some(u)
      {
        SmoothingMeans(setting.value, u);
      }
    }
    ChosenIff(v, setting, SmoothingWords, Sharp, if setting.Some? then SmoothingFrom(setting.value) else None);
  }

  lemma RenderOne(v: Render, setting: Option<string>, d: Render)
    ensures Chosen(v, setting, RenderWords, d) <==> v == Choice(OptRender(setting), d)
    ensures Accepted(setting, RenderWords) <==> OptRender(setting).Some?
    ensures setting.Some? ==> (Says(setting.value, RenderWords(v)) <==> OptRender(setting) == Some(v))
  {
    hide Says, RenderWords, RenderFrom, Chosen, Accepted;
    if setting.Some? {
      forall u: Render
        ensures Says(setting.value, RenderWords(u)) <==> RenderFrom(setting.value) == Some(u)
      {
        RenderMeans(setting.value, u);
      }
    }
    ChosenIff(v, setting, RenderWords, d, OptRender(setting));
  }

  lemma RenderIff(v: Render, setting: Option<string>, other: Option<string>)
    ensures ChosenFirst(v, setting, other, RenderWords, Auto) <==> v == ReadRender(setting, other)
  {
    hide Says, RenderWords, OptRender, Chosen, Accepted;
    RenderOne(v, setting, Auto);
    RenderOne(v, other, Auto);
    AcceptedIsGiven(setting, RenderWords);
  }

  lemma AcceptedIsGiven<T(!new)>(setting: Option<string>, words: T -> seq<string>)
    ensures Accepted(setting, words) ==> setting.Some?
  {
  }

  lemma TreeIff(v: bool, now: Option<string>, before: Option<string>, first: Option<string>)
    ensures (if Accepted(now, FlagWords) then Says(now.value, FlagWords(v)) else ChosenFirst(v, before, first, FlagWords, false)) <==>
            v == ReadTree(now, before, first)
  {
    hide Says, FlagWords, OptBool, Chosen, Accepted, Flag;
    FlagIff(v, now, false);
    FlagIff(v, before, false);
    FlagIff(v, first, false);
    AcceptedIsGiven(now, FlagWords);
    AcceptedIsGiven(before, FlagWords);
    FlagIsChoice(first, false);
  }

  lemma FlagIsChoice(setting: Option<string>, d: bool)
    ensures Flag(setting, d) == Choice(OptBool(setting), d)
  {
    hide ParseBool;
  }

  lemma ChoicesIff(env: Env, m: Keys, b: Basics)
    ensures var n := ReadBasics(env, m);
            ChoicesMean(m, b) <==>
              && b.language == n.language && b.theme == n.theme && b.updateSpeed == n.updateSpeed
              && b.smoothing == n.smoothing && b.render == n.render && b.treeHierarchical == n.treeHierarchical
  {
    hide Chosen, ChosenFirst, Accepted, Says, FlagWords, ReadLanguage, ReadTheme, ReadSpeed, ReadSmoothing, ReadRender, ReadTree,
         Setting, Flag, ReadSeconds, ReadReal, ReadWindow, ReadPage, ReadCpuMode, ReadGpuMode, ReadPerfKey;
    LanguageIff(b.language, Setting(m, "language"));
    ThemeIff(b.theme, Setting(m, "theme"));
    SpeedIff(b.updateSpeed, Setting(m, "update_speed"));
    SmoothingIff(b.smoothing, Setting(m, "text_smoothing"));
    RenderIff(b.render, Setting(m, "render_mode"), Setting(m, "gpu_acceleration"));
    TreeIff(b.treeHierarchical, Setting(m, "details_tree_hierarchical"), Setting(m, "details_tree_view"), Setting(m, "process_tree_view"));
    AcceptedIsGiven(Setting(m, "details_tree_hierarchical"), FlagWords);
  }

  /**
   Each general value is what its own key's text stands for, or the default if the key is missing
   or its text is not accepted; it depends on no other key, but for the window, which is remembered
   only if that is asked for. Exactly one record fits.
   */
  lemma BasicsMeanIff(env: Env, m: Keys, b: Basics)
    ensures BasicsMean(env, m, b) <==> b == ReadBasics(env, m)
  {
    hide FlagsMean, ChoicesMean, RangesMean, NamesMean, ReadBasics;
    FlagsIff(env, m, b);
    ChoicesIff(env, m, b);
    if b.rememberWindow == ReadBasics(env, m).rememberWindow {
      RangesIff(env, m, b);
    }
    NamesIff(env, m, b);
  }

  lemma RangesIff(env: Env, m: Keys, b: Basics)
    requires b.rememberWindow == ReadBasics(env, m).rememberWindow
    ensures var n := ReadBasics(env, m);
            RangesMean(env, m, b) <==>
              b.graphSeconds == n.graphSeconds && b.uiZoom == n.uiZoom && b.perfCardWidth == n.perfCardWidth && b.window == n.window
  {
    hide SecondsMean, RealMeans, WindowMeans, ReadSeconds, ReadReal, ReadWindow, Setting, Flag, ReadLanguage, ReadTheme,
         ReadSpeed, ReadSmoothing, ReadRender, ReadTree, ReadPage, ReadCpuMode, ReadGpuMode, ReadPerfKey;
    SecondsIff(b.graphSeconds, Setting(m, "graph_seconds"));
    RealIff(env, b.uiZoom, Setting(m, "ui_zoom"), 0.5, 3.0, 1.0);
    RealIff(env, b.perfCardWidth, Setting(m, "perf_card_width"), 100.0, 2000.0, 252.0);
    WindowIff(env, b.window, b.rememberWindow, Setting(m, "window_size"));
  }

  lemma NamesIff(env: Env, m: Keys, b: Basics)
    ensures var n := ReadBasics(env, m);
            NamesMean(env, m, b) <==>
              b.startPage == n.startPage && b.cpuMode == n.cpuMode && b.gpuMode == n.gpuMode && b.perfKey == n.perfKey
  {
    hide NameMeans, GpuModeMeans, PerfKeyMeans, ReadPage, ReadCpuMode, ReadGpuMode, ReadPerfKey, Setting, Flag, ReadLanguage,
         ReadTheme, ReadSpeed, ReadSmoothing, ReadRender, ReadTree, ReadSeconds, ReadReal, ReadWindow;
    PageIff(b.startPage, Setting(m, "default_start_page"));
    CpuModeIff(b.cpuMode, Setting(m, "cpu_graph_mode"));
    GpuModeIff(env, b.gpuMode, Setting(m, "gpu_graph_mode"));
    PerfKeyIff(b.perfKey, Setting(m, "perf_selected_key"));
  }

  // ---------------------------------------------------------- from any text

  /** What the lines of the text give for a key of the general section. */
  ghost predicate Given(text: string, key: string, value: Option<string>) {
    var lines := Lines(text);
    match value
    case Some(v) => HasValue(lines, |lines|, "general", key, v)
    case None => forall v :: !HasValue(lines, |lines|, "general", key, v)
  }

  lemma GivenIff(text: string, key: string, value: Option<string>)
    ensures Given(text, key, value) <==> value == Setting(Feed(BLANK, text).out, key)
  {
    hide HasValue, Feed, Lines;
    forall v: string
      ensures HasValue(Lines(text), |Lines(text)|, "general", key, v) <==> At(Feed(BLANK, text).out, "general", key) == Some(v)
    {
      KeyHasValueIff(text, "general", key, v);
    }
  }

  /** For every text: the general settings loaded from it are what its lines give, key by key. */
  lemma LoadedBasicsIff(env: Env, text: string, b: Basics)
    requires WalksFaithful(env)
    ensures var m := Feed(BLANK, text).out;
            && (FromText(env, text).basics == b <==> BasicsMean(env, m, b))
            && forall key, value :: Setting(m, key) == value <==> Given(text, key, value)
  {
    hide Given, Feed, BasicsMean, ReadBasics, WalksFaithful, AbsorbAll, Setting;
    var m := Feed(BLANK, text).out;
    forall key: string, value: Option<string>
      ensures Setting(m, key) == value <==> Given(text, key, value)
    {
      GivenIff(text, key, value);
    }
    BasicsMeanIff(env, m, b);
  }

  const DEFAULTS := Basics(
    true, SystemLanguage, SystemTheme, Normal, false, 60, 1.0, true, Window(1100.0, 720.0), "processes", false, 252.0,
    "overall", "overall", false, false, "cpu", false, false, false, false, Sharp, Auto)

  /** An empty file, like no file, gives the defaults. */
  lemma EmptyGivesDefaults(env: Env)
    requires WalksFaithful(env)
    ensures FromText(env, "") == Settings(DEFAULTS, Prefs(map[], map[], map[], map[], map[]))
  {
    FeedNothing(BLANK);
    NothingGiven(env);
    NothingWalked(env);
    hide Feed, ReadBasics, WalksFaithful, AbsorbAll, MigrateAll;
    NothingAbsorbed(env);
  }

  lemma NothingGiven(env: Env)
    ensures ReadBasics(env, map[]) == DEFAULTS
  {
  }

  lemma NothingWalked(env: Env)
    requires WalksFaithful(env)
    ensures var none: Keys := map[]; env.pairs(none.Keys) == []
  {
    var empty: Keys := map[];
    var walk := env.pairs(empty.Keys);
    if |walk| > 0 {
      SomeElement(walk);
    }
  }

  lemma SomeElement<T>(s: seq<T>)
    requires |s| > 0
    ensures exists x :: x in s
  {
    assert s[0] in s;
  }

  lemma NothingAbsorbed(env: Env)
    ensures MigrateAll(env, map[], AbsorbAll(env, map[], []), []) == Prefs(map[], map[], map[], map[], map[])
  {
  }
}
