/** The general section of `config.ini`: 23 values, their texts, their ranges, and how each is read. */
module Basics {
  import opened Common
  import opened Text
  import opened Ini
  import opened Values

  datatype Window = Window(width: real, height: real)

  datatype Basics = Basics(
    saveConfig: bool,
    language: Language,
    theme: Theme,
    updateSpeed: Speed,
    alwaysOnTop: bool,
    graphSeconds: nat,
    uiZoom: real,
    rememberWindow: bool,
    window: Window,
    startPage: string,
    sidebarCollapsed: bool,
    perfCardWidth: real,
    cpuMode: string,
    gpuMode: string,
    kernelTimes: bool,
    wifiDetails: bool,
    perfKey: string,
    treeHierarchical: bool,
    closeToTray: bool,
    startWithWindows: bool,
    startElevated: bool,
    smoothing: Smoothing,
    render: Render)

  const DEFAULT_WINDOW := Window(1100.0, 720.0)

  const SECTION := "general"

  const KEYS: seq<string> := [
    "save_config", "language", "theme", "update_speed", "always_on_top",
    "graph_seconds", "ui_zoom", "remember_window", "window_size", "default_start_page",
    "sidebar_collapsed", "perf_card_width", "cpu_graph_mode", "gpu_graph_mode", "show_kernel_times",
    "wifi_details", "perf_selected_key", "details_tree_hierarchical", "close_to_tray", "start_with_windows",
    "start_elevated", "text_smoothing", "render_mode"]

  function ShowWindow(env: Env, w: Window): string {
    env.show(w.width) + "x" + env.show(w.height)
  }

  /** The texts, in the order of `KEYS`. */
  function BasicTexts(env: Env, b: Basics): (r: seq<string>)
    ensures |r| == |KEYS|
  {
    [
      ShowBool(b.saveConfig), LanguageCfg(b.language), ThemeCfg(b.theme),
      SpeedCfg(b.updateSpeed), ShowBool(b.alwaysOnTop), Dec(b.graphSeconds),
      env.show(b.uiZoom), ShowBool(b.rememberWindow), ShowWindow(env, b.window),
      b.startPage, ShowBool(b.sidebarCollapsed), env.show(b.perfCardWidth),
      b.cpuMode, b.gpuMode, ShowBool(b.kernelTimes),
      ShowBool(b.wifiDetails), b.perfKey, ShowBool(b.treeHierarchical),
      ShowBool(b.closeToTray), ShowBool(b.startWithWindows), ShowBool(b.startElevated),
      SmoothingCfg(b.smoothing), RenderCfg(b.render)]
  }

  function BasicEntries(env: Env, b: Basics): (r: Entries)
    ensures |r| == |KEYS| && forall i :: 0 <= i < |KEYS| ==> r[i] == (KEYS[i], BasicTexts(env, b)[i])
  {
    seq(|KEYS|, i requires 0 <= i < |KEYS| => (KEYS[i], BasicTexts(env, b)[i]))
  }

  // --------------------------------------------------------------- reading

  function Flag(v: Option<string>, d: bool): bool {
    if v.Some? && ParseBool(v.value).Some? then ParseBool(v.value).value else d
  }

  function ReadSeconds(v: Option<string>): nat {
    if v.None? || ParseU32(v.value).None? then 60
    else
      var n := ParseU32(v.value).value;
      if n < 10 then 10 else if n > 600 then 600 else n
  }

  /** A float, if it is in range. */
  function ReadReal(env: Env, v: Option<string>, low: real, high: real, d: real): real {
    if v.Some? && env.read(v.value).Some? && low <= env.read(v.value).value <= high then env.read(v.value).value else d
  }

  /** Two floats around the first `x` or `X`. */
  function ParseWindow(env: Env, s: string): Option<Window> {
    var i := Find(AsciiLower(s), 'x');
    if i == |s| then None
    else
      var w, h := env.read(Trim(s[..i])), env.read(Trim(s[i + 1..]));
      if w.None? || h.None? then None else Some(Window(w.value, h.value))
  }

  function ReadWindow(env: Env, v: Option<string>): Window {
    if v.None? || ParseWindow(env, v.value).None? then DEFAULT_WINDOW
    else
      var w := ParseWindow(env, v.value).value;
      Window(Clamp(w.width, 200.0, 16384.0), Clamp(w.height, 150.0, 16384.0))
  }

  predicate IsPage(s: string) {
    s == "processes" || s == "performance" || s == "apphistory" || s == "startup" || s == "users" || s == "details" || s == "services"
  }

  function ReadPage(v: Option<string>): string {
    if v.Some? && IsPage(AsciiLower(Trim(v.value))) then AsciiLower(Trim(v.value)) else "processes"
  }

  predicate IsCpuMode(s: string) {
    s == "overall" || s == "logical"
  }

  function ReadCpuMode(v: Option<string>): string {
    if v.Some? && IsCpuMode(AsciiLower(Trim(v.value))) then AsciiLower(Trim(v.value)) else "overall"
  }

  predicate IsGpuMode(env: Env, s: string) {
    s != [] && Utf8Len(s) <= 32 && forall i :: 0 <= i < |s| ==> env.alnum(s[i]) || s[i] == '_' || s[i] == ' '
  }

  function ReadGpuMode(env: Env, v: Option<string>): string {
    if v.Some? && IsGpuMode(env, Trim(v.value)) then Trim(v.value) else "overall"
  }

  function ReadPerfKey(v: Option<string>): string {
    if v.Some? && Trim(v.value) != [] && Utf8Len(Trim(v.value)) <= 64 then Trim(v.value) else "cpu"
  }

  function Choice<T>(o: Option<T>, d: T): T {
    if o.Some? then o.value else d
  }

  function OptBool(v: Option<string>): Option<bool> {
    if v.Some? then ParseBool(v.value) else None
  }

  function OptRender(v: Option<string>): Option<Render> {
    if v.Some? then RenderFrom(v.value) else None
  }

  /** The tree setting went by two other names before. */
  function ReadTree(now: Option<string>, before: Option<string>, first: Option<string>): bool {
    if OptBool(now).Some? then OptBool(now).value
    else if OptBool(before).Some? then OptBool(before).value
    else Choice(OptBool(first), false)
  }

  function ReadRender(v: Option<string>, synonym: Option<string>): Render {
    if OptRender(v).Some? then OptRender(v).value else Choice(OptRender(synonym), Auto)
  }

  function Setting(m: Keys, k: string): Option<string> {
    At(m, SECTION, k)
  }

  function ReadTheme(v: Option<string>): Theme {
    if v.Some? then Choice(ThemeFrom(v.value), SystemTheme) else SystemTheme
  }

  function ReadSpeed(v: Option<string>): Speed {
    if v.Some? then Choice(SpeedFrom(v.value), Normal) else Normal
  }

  function ReadLanguage(v: Option<string>): Language {
    if v.Some? then Choice(LanguageFrom(v.value), SystemLanguage) else SystemLanguage
  }

  function ReadSmoothing(v: Option<string>): Smoothing {
    if v.Some? then Choice(SmoothingFrom(v.value), Sharp) else Sharp
  }

  /** The general section; without `remember_window` the stored size is not restored. */
  function ReadBasics(env: Env, m: Keys): Basics {
    var remember := Flag(Setting(m, "remember_window"), true);
    Basics(
      Flag(Setting(m, "save_config"), true),
      ReadLanguage(Setting(m, "language")),
      ReadTheme(Setting(m, "theme")),
      ReadSpeed(Setting(m, "update_speed")),
      Flag(Setting(m, "always_on_top"), false),
      ReadSeconds(Setting(m, "graph_seconds")),
      ReadReal(env, Setting(m, "ui_zoom"), 0.5, 3.0, 1.0),
      remember,
      if remember then ReadWindow(env, Setting(m, "window_size")) else DEFAULT_WINDOW,
      ReadPage(Setting(m, "default_start_page")),
      Flag(Setting(m, "sidebar_collapsed"), false),
      ReadReal(env, Setting(m, "perf_card_width"), 100.0, 2000.0, 252.0),
      ReadCpuMode(Setting(m, "cpu_graph_mode")),
      ReadGpuMode(env, Setting(m, "gpu_graph_mode")),
      Flag(Setting(m, "show_kernel_times"), false),
      Flag(Setting(m, "wifi_details"), false),
      ReadPerfKey(Setting(m, "perf_selected_key")),
      ReadTree(Setting(m, "details_tree_hierarchical"), Setting(m, "details_tree_view"), Setting(m, "process_tree_view")),
      Flag(Setting(m, "close_to_tray"), false),
      Flag(Setting(m, "start_with_windows"), false),
      Flag(Setting(m, "start_elevated"), false),
      ReadSmoothing(Setting(m, "text_smoothing")),
      ReadRender(Setting(m, "render_mode"), Setting(m, "gpu_acceleration")))
  }

  // ---------------------------------------------------------------- ranges

  /** Floats the program can hold, windows of a legal size, known pages and modes. */
  ghost predicate InRange(env: Env, b: Basics) {
    && 10 <= b.graphSeconds <= 600
    && env.f32(b.uiZoom) && 0.5 <= b.uiZoom <= 3.0
    && LegalWindow(env, b.window) && (!b.rememberWindow ==> b.window == DEFAULT_WINDOW)
    && IsPage(b.startPage)
    && env.f32(b.perfCardWidth) && 100.0 <= b.perfCardWidth <= 2000.0
    && IsCpuMode(b.cpuMode)
    && IsGpuMode(env, b.gpuMode) && Trimmed(b.gpuMode)
    && IsPerfKey(b.perfKey)
  }

  ghost predicate LegalWindow(env: Env, w: Window) {
    env.f32(w.width) && env.f32(w.height) && 200.0 <= w.width <= 16384.0 && 150.0 <= w.height <= 16384.0
  }

  predicate IsPerfKey(s: string) {
    s != [] && Trimmed(s) && Utf8Len(s) <= 64
  }

  // One reader at a time: what it makes of what was printed, and that it never leaves its range.

  lemma WindowReads(env: Env, v: Option<string>, w: Window)
    requires FloatsFaithful(env)
    ensures LegalWindow(env, ReadWindow(env, v))
    ensures LegalWindow(env, w) && v == Some(ShowWindow(env, w)) ==> ReadWindow(env, v) == w
  {
    hide FloatsFaithful, ShowWindow, ParseWindow;
    WindowBounds(env);
    if LegalWindow(env, w) && v == Some(ShowWindow(env, w)) {
      WindowParses(env, w);
    }
    if v.Some? && ParseWindow(env, v.value).Some? {
      WindowIsFloat(env, v.value);
    }
  }

  lemma WindowBounds(env: Env)
    requires FloatsFaithful(env)
    ensures env.f32(200.0) && env.f32(150.0) && env.f32(16384.0) && env.f32(1100.0) && env.f32(720.0)
  {
  }

  lemma WindowIsFloat(env: Env, s: string)
    requires FloatsFaithful(env)
    ensures ParseWindow(env, s).Some? ==>
              env.f32(ParseWindow(env, s).value.width) && env.f32(ParseWindow(env, s).value.height)
  {
    hide FloatText, Trim, Find, AsciiLower;
  }

  lemma WindowParses(env: Env, w: Window)
    requires FloatsFaithful(env) && env.f32(w.width) && env.f32(w.height)
    ensures ParseWindow(env, ShowWindow(env, w)) == Some(w)
  {
    hide Trim, AsciiLower, Find, Trimmed, FloatText, Escape, Strip, Plain;
    var a, b := env.show(w.width), env.show(w.height);
    FloatTextIsPlain(a);
    FloatTextIsPlain(b);
    TrimIff(a);
    TrimIff(b);
    FirstX(a, b);
    assert (a + "x" + b)[..|a|] == a && (a + "x" + b)[|a| + 1..] == b;
  }

  lemma FirstX(a: string, b: string)
    requires FloatText(a) && FloatText(b)
    ensures Find(AsciiLower(a + "x" + b), 'x') == |a|
  {
    var s := a + "x" + b;
    var l := AsciiLower(s);
    assert forall i :: 0 <= i < |a| ==> s[i] == a[i] && l[i] == LowerChar(s[i]);
    assert l[|a|] == LowerChar(s[|a|]) == 'x';
    hide AsciiLower;
    FindAt(l, 'x', |a|);
  }

  lemma PageReads(v: Option<string>, page: string)
    ensures IsPage(ReadPage(v)) && (IsPage(page) ==> Trimmed(page))
    ensures IsPage(page) && v == Some(page) ==> ReadPage(v) == page
  {
    if IsPage(page) {
      PageIsWord(page);
      TrimIff(page);
      LowerIsSame(page);
    }
    hide Trim, AsciiLower, Trimmed;
  }

  lemma PageIsWord(s: string)
    requires IsPage(s) || IsCpuMode(s)
    ensures Trimmed(s) && IsLower(s)
  {
    hide White;
    WordTrimmed(s);
  }

  lemma CpuModeReads(v: Option<string>, mode: string)
    ensures IsCpuMode(ReadCpuMode(v)) && (IsCpuMode(mode) ==> Trimmed(mode))
    ensures IsCpuMode(mode) && v == Some(mode) ==> ReadCpuMode(v) == mode
  {
    if IsCpuMode(mode) {
      PageIsWord(mode);
      TrimIff(mode);
      LowerIsSame(mode);
    }
    hide Trim, AsciiLower, Trimmed;
  }

  lemma OverallIsLegal(env: Env)
    requires LettersFaithful(env)
    ensures IsGpuMode(env, "overall") && Trimmed("overall") && IsPerfKey("cpu")
  {
    WordTrimmed("overall");
    WordTrimmed("cpu");
    hide White;
    AsciiLen("overall");
    AsciiLen("cpu");
  }

  lemma {:induction false} AsciiLen(s: string)
    requires forall i :: 0 <= i < |s| ==> s[i] < '\U{80}'
    ensures Utf8Len(s) == |s|
    decreases |s|
  {
    if s != [] {
      AsciiLen(s[1..]);
    }
  }

  lemma GpuModeReads(env: Env, v: Option<string>, mode: string)
    requires LettersFaithful(env)
    ensures IsGpuMode(env, ReadGpuMode(env, v)) && Trimmed(ReadGpuMode(env, v))
    ensures IsGpuMode(env, mode) && Trimmed(mode) && v == Some(mode) ==> ReadGpuMode(env, v) == mode
  {
    hide IsGpuMode, Trim, Trimmed;
    OverallIsLegal(env);
    TrimIff(mode);
    if v.Some? { TrimIff(v.value); }
  }

  lemma PerfKeyReads(env: Env, v: Option<string>, key: string)
    requires LettersFaithful(env)
    ensures IsPerfKey(ReadPerfKey(v))
    ensures IsPerfKey(key) && v == Some(key) ==> ReadPerfKey(v) == key
  {
    hide Trim, Trimmed, Utf8Len;
    OverallIsLegal(env);
    TrimIff(key);
    if v.Some? { TrimIff(v.value); }
  }

  lemma SecondsRead(v: Option<string>, n: nat)
    ensures 10 <= ReadSeconds(v) <= 600
    ensures 10 <= n <= 600 && v == Some(Dec(n)) ==> ReadSeconds(v) == n
  {
    if n <= 600 { U32RoundTrip(n); }
    hide ParseU32, Dec;
  }

  lemma RealReads(env: Env, v: Option<string>, low: real, high: real, d: real, x: real)
    requires FloatsFaithful(env) && env.f32(d) && low <= d <= high
    ensures env.f32(ReadReal(env, v, low, high, d)) && low <= ReadReal(env, v, low, high, d) <= high
    ensures env.f32(x) && low <= x <= high && v == Some(env.show(x)) ==> ReadReal(env, v, low, high, d) == x
  {
  }

  // ----------------------------------------------------------- all at once

  /** Whatever the file says, what is read is in range. */
  lemma ReadIsInRange(env: Env, m: Keys)
    requires FloatsFaithful(env) && LettersFaithful(env)
    ensures InRange(env, ReadBasics(env, m))
  {
    hide ReadWindow, ReadPage, ReadCpuMode, ReadGpuMode, ReadPerfKey, ReadSeconds, ReadReal, Flag, ReadTree, ReadRender,
         ReadLanguage, ReadTheme, ReadSpeed, ReadSmoothing, Setting, IsPage, IsCpuMode, IsGpuMode, IsPerfKey, FloatText, LettersFaithful, Trimmed;
    WindowReads(env, Setting(m, "window_size"), DEFAULT_WINDOW);
    PageReads(Setting(m, "default_start_page"), "");
    CpuModeReads(Setting(m, "cpu_graph_mode"), "");
    GpuModeReads(env, Setting(m, "gpu_graph_mode"), "");
    PerfKeyReads(env, Setting(m, "perf_selected_key"), "");
    SecondsRead(Setting(m, "graph_seconds"), 60);
    RealReads(env, Setting(m, "ui_zoom"), 0.5, 3.0, 1.0, 1.0);
    RealReads(env, Setting(m, "perf_card_width"), 100.0, 2000.0, 252.0, 252.0);
  }

  // ------------------------------------------------------------- the keys

  /** Where a key stands in `KEYS`; length and first two letters tell the keys apart. */
  function Rank(k: string): int {
    if |k| < 2 then -1
    else match (|k|, k[0], k[1])
      case (11, 's', 'a') => 0
      case (8, 'l', 'a') => 1
      case (5, 't', 'h') => 2
      case (12, 'u', 'p') => 3
      case (13, 'a', 'l') => 4
      case (13, 'g', 'r') => 5
      case (7, 'u', 'i') => 6
      case (15, 'r', 'e') => 7
      case (11, 'w', 'i') => 8
      case (18, 'd', 'e') => 9
      case (17, 's', 'i') => 10
      case (15, 'p', 'e') => 11
      case (14, 'c', 'p') => 12
      case (14, 'g', 'p') => 13
      case (17, 's', 'h') => 14
      case (12, 'w', 'i') => 15
      case (17, 'p', 'e') => 16
      case (25, 'd', 'e') => 17
      case (13, 'c', 'l') => 18
      case (18, 's', 't') => 19
      case (14, 's', 't') => 20
      case (14, 't', 'e') => 21
      case (11, 'r', 'e') => 22
      case _ => -1
  }

  lemma RanksLow()
    ensures forall i :: 0 <= i < 12 ==> Rank(KEYS[i]) == i
  {
  }

  lemma RanksHigh()
    ensures forall i :: 12 <= i < |KEYS| ==> Rank(KEYS[i]) == i
  {
  }

  predicate IsSlug(k: string) {
    k != [] && forall i :: 0 <= i < |k| ==> 'a' <= k[i] <= 'z' || k[i] == '_'
  }

  lemma SlugsLow()
    ensures forall i :: 0 <= i < 8 ==> IsSlug(KEYS[i])
  {
  }

  lemma SlugsMiddle()
    ensures forall i :: 8 <= i < 16 ==> IsSlug(KEYS[i])
  {
  }

  lemma SlugsHigh()
    ensures forall i :: 16 <= i < |KEYS| ==> IsSlug(KEYS[i])
  {
  }

  lemma BasicLook(env: Env, b: Basics, i: nat)
    requires i < |KEYS|
    ensures Look(BasicEntries(env, b), KEYS[i]) == Some(BasicTexts(env, b)[i])
  {
    RanksLow();
    RanksHigh();
    hide Rank, BasicTexts, Look;
    LookUnique(BasicEntries(env, b), i);
  }
}
