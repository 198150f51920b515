/** How single values of `config.ini` are printed and read. */
module Values {
  import opened Common
  import opened Text
  import opened Ini
  import PR = ProcessRules

  /**
   What the settings code is given: float text, JSON records of process rules, the
   Unicode test for letters and digits, and the order in which maps are walked.
   */
  datatype Env = Env(
    f32: real -> bool,
    tenth: real -> bool,
    show: real -> string,
    showWidth: real -> string,
    read: string -> Option<real>,
    toJson: (string, PR.Rule) -> string,
    fromJson: string -> Option<(string, PR.Rule)>,
    alnum: char -> bool,
    strings: set<string> -> seq<string>,
    pairs: set<(string, string)> -> seq<(string, string)>)

  predicate FloatText(s: string) {
    s != [] && forall i :: 0 <= i < |s| ==> '0' <= s[i] <= '9' || s[i] == '.' || s[i] == '-'
  }

  ghost predicate FloatsFaithful(env: Env) {
    && (forall x :: env.f32(x) ==> FloatText(env.show(x)) && env.read(env.show(x)) == Some(x))
    && (forall w :: FloatText(env.showWidth(w)))
    && (forall w :: env.tenth(w) ==> env.read(env.showWidth(w)) == Some(w))
    && (forall s :: env.read(s).Some? ==> env.f32(env.read(s).value))
    && env.f32(0.5) && env.f32(1.0) && env.f32(252.0) && env.f32(1100.0) && env.f32(720.0)
    && env.f32(200.0) && env.f32(150.0) && env.f32(16384.0)
  }

  ghost predicate JsonFaithful(env: Env) {
    forall path, rule :: env.fromJson(env.toJson(path, rule)) == Some((path, rule)) && Trimmed(env.toJson(path, rule))
  }

  /** Walking a map meets every key once. */
  ghost predicate WalksFaithful(env: Env) {
    && (forall s: set<string> :: NoDup(env.strings(s)) && forall x :: x in env.strings(s) <==> x in s)
    && (forall s: set<(string, string)> :: NoDup(env.pairs(s)) && forall x :: x in env.pairs(s) <==> x in s)
  }

  /** ASCII letters are letters. */
  ghost predicate LettersFaithful(env: Env) {
    forall c :: 'a' <= c <= 'z' ==> env.alnum(c)
  }

  ghost predicate Faithful(env: Env) {
    FloatsFaithful(env) && JsonFaithful(env) && WalksFaithful(env) && LettersFaithful(env)
  }

  lemma FloatTextIsPlain(s: string)
    requires FloatText(s)
    ensures Plain(s) && Trimmed(s) && Escape(s) == s && Strip(s) == s
  {
    EscapePlainIff(s);
    TrimmedIsStripped(s);
  }

  // -------------------------------------------------------------- integers

  const U32_MAX: nat := 0xFFFF_FFFF

  function Digit(n: nat): char
    requires n < 10
  {
    ('0' as int + n) as char
  }

  predicate IsDigit(c: char) {
    '0' <= c <= '9'
  }

  /** Decimal text of a number. */
  function Dec(n: nat): (s: string)
    ensures s != [] && forall i :: 0 <= i < |s| ==> IsDigit(s[i])
  {
    if n < 10 then [Digit(n)] else Dec(n / 10) + [Digit(n % 10)]
  }

  function ParseDigits(s: string): Option<nat> {
    if s == [] then Some(0)
    else
      var init, c := ParseDigits(s[..|s| - 1]), s[|s| - 1];
      if init.None? || !IsDigit(c) then None else Some(10 * init.value + (c as int - '0' as int))
  }

  /** `str::parse::<u32>`: an optional plus sign, then digits that fit. */
  function ParseU32(s: string): Option<nat> {
    var t := if s != [] && s[0] == '+' then s[1..] else s;
    var n := ParseDigits(t);
    if t == [] || n.None? || n.value > U32_MAX then None else n
  }

  lemma {:induction false} DigitsRoundTrip(n: nat)
    ensures ParseDigits(Dec(n)) == Some(n)
    decreases n
  {
    if n >= 10 {
      DigitsRoundTrip(n / 10);
      var s := Dec(n);
      assert s[..|s| - 1] == Dec(n / 10);
    } else {
      assert Dec(n)[..0] == [];
    }
  }

  lemma U32RoundTrip(n: nat)
    requires n <= U32_MAX
    ensures ParseU32(Dec(n)) == Some(n)
  {
    DigitsRoundTrip(n);
  }

  lemma DecInjective(a: nat, b: nat)
    requires Dec(a) == Dec(b)
    ensures a == b
  {
    DigitsRoundTrip(a);
    DigitsRoundTrip(b);
  }

  // ------------------------------------------------------------ enumerations

  function ShowBool(b: bool): string {
    if b then "true" else "false"
  }

  function ParseBool(s: string): Option<bool> {
    var l := AsciiLower(s);
    if l == "1" || l == "true" || l == "yes" || l == "on" then Some(true)
    else if l == "0" || l == "false" || l == "no" || l == "off" then Some(false)
    else None
  }

  datatype Theme = SystemTheme | Light | Dark

  function ThemeCfg(t: Theme): string {
    match t
    case SystemTheme => "system"
    case Light => "light"
    case Dark => "dark"
  }

  function ThemeFrom(s: string): Option<Theme> {
    var l := AsciiLower(s);
    if l == "system" then Some(SystemTheme)
    else if l == "light" || l == "hell" then Some(Light)
    else if l == "dark" || l == "dunkel" then Some(Dark)
    else None
  }

  datatype Speed = High | Normal | Low | Paused

  function SpeedCfg(s: Speed): string {
    match s
    case High => "high"
    case Normal => "normal"
    case Low => "low"
    case Paused => "paused"
  }

  function SpeedFrom(s: string): Option<Speed> {
    var l := AsciiLower(s);
    if l == "high" then Some(High)
    else if l == "normal" then Some(Normal)
    else if l == "low" then Some(Low)
    else if l == "paused" then Some(Paused)
    else None
  }

  datatype Language = SystemLanguage | De | En

  function LanguageCfg(c: Language): string {
    match c
    case SystemLanguage => "system"
    case De => "de"
    case En => "en"
  }

  function LanguageFrom(s: string): Option<Language> {
    var l := AsciiLower(s);
    if l == "system" || l == "" then Some(SystemLanguage)
    else if l == "de" || l == "german" then Some(De)
    else if l == "en" || l == "english" then Some(En)
    else None
  }

  datatype Smoothing = Sharp | Standard | Smooth

  function SmoothingCfg(s: Smoothing): string {
    match s
    case Sharp => "sharp"
    case Standard => "standard"
    case Smooth => "smooth"
  }

  function SmoothingFrom(s: string): Option<Smoothing> {
    var l := AsciiLower(s);
    if l == "sharp" || l == "scharf" then Some(Sharp)
    else if l == "standard" || l == "normal" then Some(Standard)
    else if l == "smooth" || l == "weich" then Some(Smooth)
    else None
  }

  datatype Render = Auto | Compatibility | Software

  function RenderCfg(r: Render): string {
    match r
    case Auto => "auto"
    case Compatibility => "compatibility"
    case Software => "software"
  }

  function RenderFrom(s: string): Option<Render> {
    var l := AsciiLower(s);
    if l == "auto" || l == "automatic" || l == "automatisch" || l == "gpu" || l == "true" || l == "on" then Some(Auto)
    else if l == "compatibility" || l == "kompatibilitaet" || l == "opengl" || l == "gl" then Some(Compatibility)
    else if l == "software" || l == "cpu" || l == "warp" || l == "false" || l == "off" then Some(Software)
    else None
  }

  predicate IsLower(s: string) {
    forall i :: 0 <= i < |s| ==> !('A' <= s[i] <= 'Z')
  }

  lemma LowerIsSame(s: string)
    requires IsLower(s)
    ensures AsciiLower(s) == s
  {
  }

  lemma WordTrimmed(s: string)
    requires s != [] && 'a' <= s[0] <= 'z' && 'a' <= s[|s| - 1] <= 'z'
    ensures Trimmed(s)
  {
  }

  /** Every printed choice is read back, and printed choices are trimmed. */
  lemma BoolReadsBack(b: bool)
    ensures ParseBool(ShowBool(b)) == Some(b) && Trimmed(ShowBool(b))
  {
    hide White, AsciiLower;
    LowerIsSame(ShowBool(b));
    WordTrimmed(ShowBool(b));
  }

  function ShowBit(b: bool): string {
    if b then "1" else "0"
  }

  lemma BitReadsBack(b: bool)
    ensures ParseBool(ShowBit(b)) == Some(b) && Trimmed(ShowBit(b)) && Plain(ShowBit(b))
  {
    hide AsciiLower;
    LowerIsSame(ShowBit(b));
  }

  lemma ThemeReadsBack(t: Theme)
    ensures ThemeFrom(ThemeCfg(t)) == Some(t) && Trimmed(ThemeCfg(t))
  {
    hide White, AsciiLower;
    LowerIsSame(ThemeCfg(t));
    WordTrimmed(ThemeCfg(t));
  }

  lemma SpeedReadsBack(s: Speed)
    ensures SpeedFrom(SpeedCfg(s)) == Some(s) && Trimmed(SpeedCfg(s))
  {
    hide White, AsciiLower;
    LowerIsSame(SpeedCfg(s));
    WordTrimmed(SpeedCfg(s));
  }

  lemma LanguageReadsBack(l: Language)
    ensures LanguageFrom(LanguageCfg(l)) == Some(l) && Trimmed(LanguageCfg(l))
  {
    hide White, AsciiLower;
    LowerIsSame(LanguageCfg(l));
    WordTrimmed(LanguageCfg(l));
  }

  lemma SmoothingReadsBack(s: Smoothing)
    ensures SmoothingFrom(SmoothingCfg(s)) == Some(s) && Trimmed(SmoothingCfg(s))
  {
    hide White, AsciiLower;
    LowerIsSame(SmoothingCfg(s));
    WordTrimmed(SmoothingCfg(s));
  }

  lemma RenderReadsBack(r: Render)
    ensures RenderFrom(RenderCfg(r)) == Some(r) && Trimmed(RenderCfg(r))
  {
    hide White, AsciiLower;
    LowerIsSame(RenderCfg(r));
    WordTrimmed(RenderCfg(r));
  }

  // ---------------------------------------------------------------- lists

  function Split(s: string, c: char): seq<string>
    decreases |s|
  {
    var i := Find(s, c);
    if i == |s| then [s] else [s[..i]] + Split(s[i + 1..], c)
  }

  function Join(parts: seq<string>, c: char): string {
    if parts == [] then "" else if |parts| == 1 then parts[0] else parts[0] + [c] + Join(parts[1..], c)
  }

  /** Splitting undoes joining exactly for non-empty lists of parts without the separator. */
  lemma {:induction false} SplitJoinIff(parts: seq<string>, c: char)
    ensures Split(Join(parts, c), c) == parts <==> parts != [] && forall i :: 0 <= i < |parts| ==> c !in parts[i]
    decreases |parts|
  {
    SplitHasNone(Join(parts, c), c);
    if parts != [] && forall i :: 0 <= i < |parts| ==> c !in parts[i] {
      SplitJoin(parts, c);
    }
  }

  lemma {:induction false} SplitHasNone(s: string, c: char)
    ensures Split(s, c) != [] && forall i :: 0 <= i < |Split(s, c)| ==> c !in Split(s, c)[i]
    decreases |s|
  {
    var i := Find(s, c);
    if i < |s| {
      SplitHasNone(s[i + 1..], c);
    }
  }

  lemma {:induction false} SplitJoin(parts: seq<string>, c: char)
    requires parts != [] && forall i :: 0 <= i < |parts| ==> c !in parts[i]
    ensures Split(Join(parts, c), c) == parts
    decreases |parts|
  {
    var p, s := parts[0], Join(parts, c);
    if |parts| == 1 {
      FindAt(s, c, |s|);
    } else {
      var rest := Join(parts[1..], c);
      assert forall i :: 0 <= i < |parts| - 1 ==> parts[1..][i] == parts[i + 1];
      SplitJoin(parts[1..], c);
      FindAt(s, c, |p|);
      assert s[..|p|] == p && s[|p| + 1..] == rest;
    }
  }

  /** Index of the last `c`, or -1. */
  function FindLast(s: string, c: char): (i: int)
    ensures -1 <= i < |s|
    ensures forall k :: i < k < |s| ==> s[k] != c
    ensures i >= 0 ==> s[i] == c
  {
    if s == [] then -1 else if s[|s| - 1] == c then |s| - 1 else FindLast(s[..|s| - 1], c)
  }

  function Clamp(x: real, low: real, high: real): real {
    if x < low then low else if x > high then high else x
  }
}
