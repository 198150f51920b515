/**
 `config.ini` as a whole: the printer, the reader, and the round trip through both.
 */
module Settings {
  import opened Common
  import opened Text
  import opened Ini
  import opened Values
  import opened Basics
  import opened Preferences
  import opened PrefsRoundTrip
  import opened Legacy
  import PR = ProcessRules

  datatype Settings = Settings(basics: Basics, prefs: Prefs)

  // Long literals are in two pieces: proofs follow a literal character by character, and only so far.

  const HEAD_ONE := "# taskman configuration \U{2014} edited" + " values apply on the next start."

  const HEAD_TWO := "# Delete this file to reset all" + " settings to their defaults."

  const HEAD := HEAD_ONE + "\n" + (HEAD_TWO + "\n" + "\n")

  function BasicBlock(env: Env, b: Basics): Block {
    Block("", SECTION, "", BasicEntries(env, b))
  }

  function AllBlocks(env: Env, s: Settings): seq<Block>
    requires WalksFaithful(env)
  {
    [BasicBlock(env, s.basics)] + PrefBlocks(env, s.prefs)
  }

  /** The text `save_to` writes. */
  function SaveText(env: Env, s: Settings): string
    requires WalksFaithful(env)
  {
    HEAD + BlocksText(AllBlocks(env, s))
  }

  function FromKeys(env: Env, m: Keys): Settings
    requires WalksFaithful(env)
  {
    var keys := env.pairs(m.Keys);
    Settings(ReadBasics(env, m), MigrateAll(env, m, AbsorbAll(env, m, keys), keys))
  }

  function FromText(env: Env, text: string): Settings
    requires WalksFaithful(env)
  {
    FromKeys(env, Feed(BLANK, text).out)
  }

  // -------------------------------------------------- the general section

  lemma FlagReads(b: bool, d: bool)
    ensures Flag(Some(ShowBool(b)), d) == b && Trimmed(ShowBool(b)) && OptBool(Some(ShowBool(b))) == Some(b)
  {
    BoolReadsBack(b);
    hide ParseBool, ShowBool, White;
  }

  lemma ChoicesRead(b: Basics)
    ensures ReadLanguage(Some(LanguageCfg(b.language))) == b.language && Trimmed(LanguageCfg(b.language))
    ensures ReadTheme(Some(ThemeCfg(b.theme))) == b.theme && Trimmed(ThemeCfg(b.theme))
    ensures ReadSpeed(Some(SpeedCfg(b.updateSpeed))) == b.updateSpeed && Trimmed(SpeedCfg(b.updateSpeed))
    ensures ReadSmoothing(Some(SmoothingCfg(b.smoothing))) == b.smoothing && Trimmed(SmoothingCfg(b.smoothing))
    ensures OptRender(Some(RenderCfg(b.render))) == Some(b.render) && Trimmed(RenderCfg(b.render))
  {
    hide LanguageCfg, LanguageFrom, ThemeCfg, ThemeFrom, SpeedCfg, SpeedFrom, SmoothingCfg, SmoothingFrom, RenderCfg, RenderFrom, White, Trimmed;
    LanguageReadsBack(b.language);
    ThemeReadsBack(b.theme);
    SpeedReadsBack(b.updateSpeed);
    SmoothingReadsBack(b.smoothing);
    RenderReadsBack(b.render);
  }

  /** `m` holds the printed general section. */
  ghost predicate HoldsBasics(env: Env, b: Basics, m: Keys) {
    forall i :: 0 <= i < |KEYS| ==> Setting(m, KEYS[i]) == Some(BasicTexts(env, b)[i])
  }

  lemma FlagsHeld(env: Env, b: Basics, m: Keys)
    requires HoldsBasics(env, b, m)
    ensures Setting(m, "save_config") == Some(ShowBool(b.saveConfig)) && Setting(m, "always_on_top") == Some(ShowBool(b.alwaysOnTop))
    ensures Setting(m, "remember_window") == Some(ShowBool(b.rememberWindow))
    ensures Setting(m, "sidebar_collapsed") == Some(ShowBool(b.sidebarCollapsed))
    ensures Setting(m, "show_kernel_times") == Some(ShowBool(b.kernelTimes))
    ensures Setting(m, "wifi_details") == Some(ShowBool(b.wifiDetails))
    ensures Setting(m, "details_tree_hierarchical") == Some(ShowBool(b.treeHierarchical))
    ensures Setting(m, "close_to_tray") == Some(ShowBool(b.closeToTray))
    ensures Setting(m, "start_with_windows") == Some(ShowBool(b.startWithWindows))
    ensures Setting(m, "start_elevated") == Some(ShowBool(b.startElevated))
  {
    hide ShowBool, Setting, LanguageCfg, ThemeCfg, SpeedCfg, SmoothingCfg, RenderCfg, Dec, ShowWindow;
    assert Setting(m, KEYS[0]) == Some(BasicTexts(env, b)[0]) && Setting(m, KEYS[4]) == Some(BasicTexts(env, b)[4]);
    assert Setting(m, KEYS[7]) == Some(BasicTexts(env, b)[7]) && Setting(m, KEYS[10]) == Some(BasicTexts(env, b)[10]);
    assert Setting(m, KEYS[14]) == Some(BasicTexts(env, b)[14]) && Setting(m, KEYS[15]) == Some(BasicTexts(env, b)[15]);
    assert Setting(m, KEYS[17]) == Some(BasicTexts(env, b)[17]) && Setting(m, KEYS[18]) == Some(BasicTexts(env, b)[18]);
    assert Setting(m, KEYS[19]) == Some(BasicTexts(env, b)[19]) && Setting(m, KEYS[20]) == Some(BasicTexts(env, b)[20]);
  }

  lemma ValuesHeld(env: Env, b: Basics, m: Keys)
    requires HoldsBasics(env, b, m)
    ensures Setting(m, "language") == Some(LanguageCfg(b.language)) && Setting(m, "theme") == Some(ThemeCfg(b.theme))
    ensures Setting(m, "update_speed") == Some(SpeedCfg(b.updateSpeed)) && Setting(m, "graph_seconds") == Some(Dec(b.graphSeconds))
    ensures Setting(m, "ui_zoom") == Some(env.show(b.uiZoom)) && Setting(m, "window_size") == Some(ShowWindow(env, b.window))
    ensures Setting(m, "default_start_page") == Some(b.startPage) && Setting(m, "perf_card_width") == Some(env.show(b.perfCardWidth))
    ensures Setting(m, "cpu_graph_mode") == Some(b.cpuMode) && Setting(m, "gpu_graph_mode") == Some(b.gpuMode)
    ensures Setting(m, "perf_selected_key") == Some(b.perfKey)
    ensures Setting(m, "text_smoothing") == Some(SmoothingCfg(b.smoothing)) && Setting(m, "render_mode") == Some(RenderCfg(b.render))
  {
    hide ShowBool, Setting, LanguageCfg, ThemeCfg, SpeedCfg, SmoothingCfg, RenderCfg, Dec, ShowWindow;
    assert Setting(m, KEYS[1]) == Some(BasicTexts(env, b)[1]) && Setting(m, KEYS[2]) == Some(BasicTexts(env, b)[2]);
    assert Setting(m, KEYS[3]) == Some(BasicTexts(env, b)[3]) && Setting(m, KEYS[5]) == Some(BasicTexts(env, b)[5]);
    assert Setting(m, KEYS[6]) == Some(BasicTexts(env, b)[6]) && Setting(m, KEYS[8]) == Some(BasicTexts(env, b)[8]);
    assert Setting(m, KEYS[9]) == Some(BasicTexts(env, b)[9]) && Setting(m, KEYS[11]) == Some(BasicTexts(env, b)[11]);
    assert Setting(m, KEYS[12]) == Some(BasicTexts(env, b)[12]) && Setting(m, KEYS[13]) == Some(BasicTexts(env, b)[13]);
    assert Setting(m, KEYS[16]) == Some(BasicTexts(env, b)[16]);
    assert Setting(m, KEYS[21]) == Some(BasicTexts(env, b)[21]) && Setting(m, KEYS[22]) == Some(BasicTexts(env, b)[22]);
  }

  lemma FlagsReadBack(env: Env, b: Basics, m: Keys)
    requires HoldsBasics(env, b, m)
    ensures
      var r := ReadBasics(env, m);
      && r.saveConfig == b.saveConfig && r.alwaysOnTop == b.alwaysOnTop && r.rememberWindow == b.rememberWindow
      && r.sidebarCollapsed == b.sidebarCollapsed && r.kernelTimes == b.kernelTimes && r.wifiDetails == b.wifiDetails
      && r.treeHierarchical == b.treeHierarchical && r.closeToTray == b.closeToTray
      && r.startWithWindows == b.startWithWindows && r.startElevated == b.startElevated
  {
    hide HoldsBasics, Flag, ShowBool, Setting, OptBool, Trimmed,
         ReadWindow, ReadPage, ReadCpuMode, ReadGpuMode, ReadPerfKey, ReadSeconds, ReadReal, ReadRender,
         ReadLanguage, ReadTheme, ReadSpeed, ReadSmoothing;
    FlagsHeld(env, b, m);
    FlagReads(b.saveConfig, true);
    FlagReads(b.rememberWindow, true);
    FlagReads(b.alwaysOnTop, false);
    FlagReads(b.sidebarCollapsed, false);
    FlagReads(b.kernelTimes, false);
    FlagReads(b.wifiDetails, false);
    FlagReads(b.treeHierarchical, false);
    FlagReads(b.closeToTray, false);
    FlagReads(b.startWithWindows, false);
    FlagReads(b.startElevated, false);
  }

  lemma ChoicesReadBack(env: Env, b: Basics, m: Keys)
    requires HoldsBasics(env, b, m)
    ensures
      var r := ReadBasics(env, m);
      && r.language == b.language && r.theme == b.theme && r.updateSpeed == b.updateSpeed
      && r.smoothing == b.smoothing && r.render == b.render
  {
    hide HoldsBasics, Flag, Setting, OptRender, LanguageCfg, ThemeCfg, SpeedCfg, SmoothingCfg, RenderCfg, Trimmed,
         ReadWindow, ReadPage, ReadCpuMode, ReadGpuMode, ReadPerfKey, ReadSeconds, ReadReal, ReadTree,
         ReadLanguage, ReadTheme, ReadSpeed, ReadSmoothing;
    ValuesHeld(env, b, m);
    ChoicesRead(b);
  }

  lemma RangesReadBack(env: Env, b: Basics, m: Keys)
    requires FloatsFaithful(env) && LettersFaithful(env) && HoldsBasics(env, b, m) && InRange(env, b)
    ensures
      var r := ReadBasics(env, m);
      && r.graphSeconds == b.graphSeconds && r.uiZoom == b.uiZoom && r.window == b.window && r.startPage == b.startPage
      && r.perfCardWidth == b.perfCardWidth && r.cpuMode == b.cpuMode && r.gpuMode == b.gpuMode && r.perfKey == b.perfKey
  {
    hide HoldsBasics, Flag, ShowBool, Setting, Dec, ShowWindow,
         ReadWindow, ReadPage, ReadCpuMode, ReadGpuMode, ReadPerfKey, ReadSeconds, ReadReal, ReadRender, ReadTree,
         ReadLanguage, ReadTheme, ReadSpeed, ReadSmoothing, FloatText, LettersFaithful,
         IsPage, IsCpuMode, IsGpuMode, IsPerfKey, Trimmed, LegalWindow;
    FlagsReadBack(env, b, m);
    ValuesHeld(env, b, m);
    SecondsRead(Setting(m, "graph_seconds"), b.graphSeconds);
    RealReads(env, Setting(m, "ui_zoom"), 0.5, 3.0, 1.0, b.uiZoom);
    WindowReads(env, Setting(m, "window_size"), b.window);
    PageReads(Setting(m, "default_start_page"), b.startPage);
    RealReads(env, Setting(m, "perf_card_width"), 100.0, 2000.0, 252.0, b.perfCardWidth);
    CpuModeReads(Setting(m, "cpu_graph_mode"), b.cpuMode);
    GpuModeReads(env, Setting(m, "gpu_graph_mode"), b.gpuMode);
    PerfKeyReads(env, Setting(m, "perf_selected_key"), b.perfKey);
  }

  /** The general section is read back exactly when its values are in range. */
  lemma BasicsReadBackIff(env: Env, b: Basics, m: Keys)
    requires FloatsFaithful(env) && LettersFaithful(env) && HoldsBasics(env, b, m)
    ensures ReadBasics(env, m) == b <==> InRange(env, b)
  {
    hide HoldsBasics, InRange, ReadBasics, FloatsFaithful, LettersFaithful;
    ReadIsInRange(env, m);
    if InRange(env, b) {
      FlagsReadBack(env, b, m);
      ChoicesReadBack(env, b, m);
      RangesReadBack(env, b, m);
    }
  }

  lemma NumbersTrimmed(env: Env, b: Basics)
    requires FloatsFaithful(env) && InRange(env, b)
    ensures Trimmed(Dec(b.graphSeconds)) && Trimmed(env.show(b.uiZoom)) && Trimmed(env.show(b.perfCardWidth))
    ensures Trimmed(ShowWindow(env, b.window))
  {
    hide Plain, Escape, Strip;
    FloatTextIsPlain(env.show(b.uiZoom));
    FloatTextIsPlain(env.show(b.perfCardWidth));
    FloatTextIsPlain(env.show(b.window.width));
    FloatTextIsPlain(env.show(b.window.height));
    DigitsTrimmed(b.graphSeconds);
    hide White, Dec, FloatText;
  }

  lemma DigitsTrimmed(n: nat)
    ensures Trimmed(Dec(n))
  {
    hide Dec;
  }

  lemma WordsTrimmed(env: Env, b: Basics)
    requires LettersFaithful(env) && InRange(env, b)
    ensures Trimmed(b.startPage) && Trimmed(b.cpuMode) && Trimmed(b.gpuMode) && Trimmed(b.perfKey)
  {
    hide Trimmed, ReadPage, ReadCpuMode, IsPage, IsCpuMode, IsGpuMode;
    PageReads(None, b.startPage);
    CpuModeReads(None, b.cpuMode);
  }

  lemma FlagTextsTrimmed(env: Env, b: Basics)
    ensures Trimmed(BasicTexts(env, b)[0]) && Trimmed(BasicTexts(env, b)[4]) && Trimmed(BasicTexts(env, b)[7]) && Trimmed(BasicTexts(env, b)[10])
    ensures Trimmed(BasicTexts(env, b)[14]) && Trimmed(BasicTexts(env, b)[15]) && Trimmed(BasicTexts(env, b)[17]) && Trimmed(BasicTexts(env, b)[18])
    ensures Trimmed(BasicTexts(env, b)[19]) && Trimmed(BasicTexts(env, b)[20])
  {
    hide Trimmed, ShowBool, LanguageCfg, ThemeCfg, SpeedCfg, SmoothingCfg, RenderCfg, Dec, ShowWindow;
    EveryBool();
  }

  lemma ChoiceTextsTrimmed(env: Env, b: Basics)
    ensures Trimmed(BasicTexts(env, b)[1]) && Trimmed(BasicTexts(env, b)[2]) && Trimmed(BasicTexts(env, b)[3]) && Trimmed(BasicTexts(env, b)[21])
    ensures Trimmed(BasicTexts(env, b)[22])
  {
    hide Trimmed, ShowBool, LanguageCfg, ThemeCfg, SpeedCfg, SmoothingCfg, RenderCfg, Dec, ShowWindow,
         ReadLanguage, ReadTheme, ReadSpeed, ReadSmoothing, OptRender;
    ChoicesRead(b);
  }

  lemma ValueTextsTrimmed(env: Env, b: Basics)
    requires FloatsFaithful(env) && LettersFaithful(env) && InRange(env, b)
    ensures Trimmed(BasicTexts(env, b)[5]) && Trimmed(BasicTexts(env, b)[6]) && Trimmed(BasicTexts(env, b)[8]) && Trimmed(BasicTexts(env, b)[9])
    ensures Trimmed(BasicTexts(env, b)[11]) && Trimmed(BasicTexts(env, b)[12]) && Trimmed(BasicTexts(env, b)[13]) && Trimmed(BasicTexts(env, b)[16])
  {
    hide Trimmed, ShowBool, LanguageCfg, ThemeCfg, SpeedCfg, SmoothingCfg, RenderCfg, Dec, ShowWindow,
         InRange, FloatsFaithful, LettersFaithful;
    NumbersTrimmed(env, b);
    WordsTrimmed(env, b);
  }

  lemma TextsTrimmed(env: Env, b: Basics)
    requires FloatsFaithful(env) && LettersFaithful(env) && InRange(env, b)
    ensures forall i :: 0 <= i < |KEYS| ==> Trimmed(BasicTexts(env, b)[i])
  {
    hide Trimmed, BasicTexts, InRange, FloatsFaithful, LettersFaithful;
    FlagTextsTrimmed(env, b);
    ChoiceTextsTrimmed(env, b);
    ValueTextsTrimmed(env, b);
  }

  lemma EveryBool()
    ensures forall b :: Trimmed(ShowBool(b))
  {
    forall b
      ensures Trimmed(ShowBool(b))
    {
      BoolReadsBack(b);
    }
  }

  lemma KeysAreSlugs()
    ensures forall i :: 0 <= i < |KEYS| ==> IsSlug(KEYS[i])
  {
    SlugsLow();
    SlugsMiddle();
    SlugsHigh();
    hide IsSlug;
  }

  lemma BasicsLoose(env: Env, b: Basics)
    requires FloatsFaithful(env) && LettersFaithful(env) && InRange(env, b)
    ensures LooseBlock(BasicBlock(env, b))
  {
    hide Loose, BasicTexts, InRange, FloatsFaithful, LettersFaithful, CleanName, Trimmed;
    KeysAreSlugs();
    TextsTrimmed(env, b);
    var entries := BasicEntries(env, b);
    forall i | 0 <= i < |entries|
      ensures Loose(entries[i].0, entries[i].1)
    {
      assert IsSlug(KEYS[i]);
      SlugIsLoose(KEYS[i], BasicTexts(env, b)[i]);
    }
    NamesAreClean();
    NoNote();
  }

  // ----------------------------------------------------------- round trip

  lemma FeedHead(rest: string)
    ensures Feed(BLANK, HEAD + rest) == Feed(BLANK, rest)
  {
    hide Feed, IsNote;
    assert '\n' !in HEAD_ONE && '\n' !in HEAD_TWO;
    NoteLine(HEAD_ONE);
    NoteLine(HEAD_TWO);
    FeedNote(BLANK, HEAD_ONE + "\n", HEAD_TWO + "\n" + ("\n" + rest));
    FeedNote(BLANK, HEAD_TWO + "\n", "\n" + rest);
    FeedGap(BLANK, rest);
    assert HEAD + rest == HEAD_ONE + "\n" + (HEAD_TWO + "\n" + ("\n" + rest));
  }

  /** What reading the saved text gives. */
  function SavedMap(env: Env, s: Settings): Keys
    requires WalksFaithful(env)
  {
    PutAll(map[], EscapedBlocks(AllBlocks(env, s)))
  }

  /** The saved text holds what its blocks say and nothing else, under keys as they are printed. */
  lemma SavedKeys(env: Env, s: Settings)
    requires Faithful(env) && Loadable(s.prefs) && InRange(env, s.basics)
    ensures Feed(BLANK, SaveText(env, s)).out == SavedMap(env, s)
  {
    hide Feed, LooseBlock, BasicBlock, PrefBlocks, Loadable, InRange, PutAll, BlocksText, EscapedBlocks, FloatsFaithful, JsonFaithful, LettersFaithful;
    BasicsLoose(env, s.basics);
    PrefBlocksLoose(env, s.prefs);
    var blocks := AllBlocks(env, s);
    FeedHead(BlocksText(blocks));
    var section := FeedBlocks(BLANK, blocks, "");
    assert BlocksText(blocks) + "" == BlocksText(blocks);
    FeedNothing(State(section, SavedMap(env, s)));
  }

  /** What the settings have printed under a key. */
  function SavedValue(env: Env, s: Settings, section: string, key: string): Option<string>
    requires WalksFaithful(env)
  {
    if SectionOf(section).General? then Look(BasicEntries(env, s.basics), key) else Printed(env, s.prefs, section, key)
  }

  lemma LookAt(env: Env, s: Settings, section: string, key: string)
    requires WalksFaithful(env) && LoadableTables(s.prefs)
    ensures LookAll(AllBlocks(env, s), section, key) == SavedValue(env, s, section, key)
  {
    hide PrefBlocks, Look, LookAll, SectionOf, BasicEntries, LoadableTables, WalksFaithful, Printed;
    LookAllAppend([BasicBlock(env, s.basics)], PrefBlocks(env, s.prefs), section, key);
    LookOneBlock(BasicBlock(env, s.basics), section, key);
    LookPrefs(env, s.prefs, section, key);
    NameOfSection(section);
    SortSection();
    GeneralNotPrinted(env, s.prefs, section, key);
  }

  lemma GeneralNotPrinted(env: Env, p: Prefs, section: string, key: string)
    requires WalksFaithful(env)
    ensures SectionOf(section).General? ==> Printed(env, p, section, key) == None
  {
    hide SectionOf;
  }

  /** A printed key is found under its escaped form. */
  lemma SavedAt(env: Env, s: Settings, section: string, key: string)
    requires WalksFaithful(env) && LoadableTables(s.prefs)
    ensures At(SavedMap(env, s), section, Escape(key)) == SavedValue(env, s, section, key)
  {
    hide LookAll, EscapedBlocks, Escape, At, PutAll, AllBlocks, SavedValue, LoadableTables, WalksFaithful;
    var blocks := AllBlocks(env, s);
    PutAllLook(EscapedBlocks(blocks), section, Escape(key));
    LookAllEscaped(blocks, section, key);
    LookAt(env, s, section, key);
  }

  /** Whatever is found was printed, by a key whose escaped form it is. */
  lemma FoundAt(env: Env, s: Settings, section: string, k: string)
    requires WalksFaithful(env) && LoadableTables(s.prefs) && At(SavedMap(env, s), section, k).Some?
    ensures exists key :: Escape(key) == k && SavedValue(env, s, section, key).Some?
  {
    hide LookAll, EscapedBlocks, Escape, At, PutAll, AllBlocks, SavedValue, LoadableTables, WalksFaithful;
    var blocks := AllBlocks(env, s);
    PutAllLook(EscapedBlocks(blocks), section, k);
    FoundAllEscaped(blocks, section, k);
    var key :| Escape(key) == k && LookAll(blocks, section, key).Some?;
    LookAt(env, s, section, key);
  }

  lemma SavedBasics(env: Env, s: Settings)
    requires WalksFaithful(env) && LoadableTables(s.prefs)
    ensures HoldsBasics(env, s.basics, SavedMap(env, s))
  {
    hide Look, BasicEntries, BasicTexts, SavedMap, At, Escape, IsSlug, LoadableTables, WalksFaithful, Printed, SectionOf;
    KeysAreSlugs();
    forall i | 0 <= i < |KEYS|
      ensures Setting(SavedMap(env, s), KEYS[i]) == Some(BasicTexts(env, s.basics)[i])
    {
      PlainKey(KEYS[i]);
      SavedAt(env, s, SECTION, KEYS[i]);
      SortSection();
      BasicLook(env, s.basics, i);
    }
  }

  lemma PlainKey(k: string)
    requires IsSlug(k)
    ensures Escape(k) == k
  {
    EscapePlainIff(k);
  }

  /** With plain ids the escapes make no difference. */
  lemma SavedPrefs(env: Env, s: Settings)
    requires Faithful(env) && LoadableTables(s.prefs) && PlainIds(s.prefs)
    ensures ReadFrom(env, s.prefs, SavedMap(env, s))
  {
    hide SectionOf, SavedMap, At, Escape, Plain, LoadableTables, PlainIds, Printed, Look, BasicEntries, FloatsFaithful, WalksFaithful, JsonFaithful, LettersFaithful;
    forall section, key | !SectionOf(section).General?
      ensures At(SavedMap(env, s), section, key) == Printed(env, s.prefs, section, key)
    {
      PrintedPlain(env, s.prefs, section, key);
      EscapePlainIff(key);
      if Plain(key) {
        SavedAt(env, s, section, key);
      } else if At(SavedMap(env, s), section, key).Some? {
        FoundAt(env, s, section, key);
        var id :| Escape(id) == key && SavedValue(env, s, section, id).Some?;
        PrintedPlain(env, s.prefs, section, id);
        EscapePlainIff(id);
        assert false;
      }
    }
  }

  lemma KeysListed(env: Env, m: Keys)
    requires WalksFaithful(env)
    ensures Listed(env.pairs(m.Keys), m) && forall k :: k in m ==> k in env.pairs(m.Keys)
  {
    var keys := env.pairs(m.Keys);
    forall i | 0 <= i < |keys|
      ensures keys[i] in m
    {
      assert keys[i] in m.Keys;
    }
    assert forall k :: k in m ==> k in m.Keys;
  }

  /** Nothing is printed in the old section, so nothing is migrated. */
  lemma NoOldSection(env: Env, s: Settings)
    requires WalksFaithful(env) && LoadableTables(s.prefs)
    ensures forall k :: k in SavedMap(env, s) ==> k.0 != "columns"
  {
    hide SavedMap, SectionOf, Escape, LoadableTables, WalksFaithful;
    forall k | k in SavedMap(env, s)
      ensures k.0 != "columns"
    {
      assert At(SavedMap(env, s), k.0, k.1).Some?;
      FoundAt(env, s, k.0, k.1);
      LegacySection();
      var key :| Escape(key) == k.1 && SavedValue(env, s, k.0, key).Some?;
    }
  }

  lemma LegacySection()
    ensures SectionOf("columns") == Preferences.Legacy
  {
  }

  /** Storable settings with every general value in range are loaded as they were saved. */
  lemma SettingsRoundTrip(env: Env, s: Settings)
    requires Faithful(env) && Storable(env, s.prefs) && InRange(env, s.basics)
    ensures FromText(env, SaveText(env, s)) == s
  {
    hide Feed, SaveText, ReadBasics, InRange, FloatsFaithful, JsonFaithful, LettersFaithful, WalksFaithful, AbsorbAll, MigrateAll,
         SavedMap, LoadableTables, PlainIds, ExactWidths, HoldsBasics, ReadFrom, GoodKey;
    var m := Feed(BLANK, SaveText(env, s)).out;
    SavedKeys(env, s);
    SavedBasics(env, s);
    BasicsReadBackIff(env, s.basics, m);
    SavedPrefs(env, s);
    KeysListed(env, m);
    var keys := env.pairs(m.Keys);
    PrefsReadBack(env, s.prefs, m, keys);
    NoOldSection(env, s);
    NothingToMigrate(env, m, s.prefs, keys);
  }

  /** In the terms of the program: in-range values, slugs for names, nothing empty. */
  lemma SlugSettingsRoundTrip(env: Env, s: Settings)
    requires Faithful(env) && SlugTables(env, s.prefs) && InRange(env, s.basics)
    ensures FromText(env, SaveText(env, s)) == s
  {
    hide Feed, SaveText, FromText, InRange, SlugTables, Storable;
    SlugsAreStorable(env, s.prefs);
    SettingsRoundTrip(env, s);
  }
}
