/** The dashboard's UI configuration (`lib/uiConfig.ts`): `normalize` turns
    whatever JSON was stored into a complete configuration, starting from the
    defaults and taking over only the fields that pass its checks. Reading
    and writing `localStorage` and applying the configuration to the page are
    browser effects and are not part of this model. */
module UiConfig {
  import opened Wrappers
  import opened Json
  import opened Text
  import opened Seqs

  datatype ThemePreset = ThemePreset(
    id: string, name: string, accent: string, accent2: string,
    backgroundGlow: Option<bool>, compact: Option<bool>)

  datatype Appearance = Appearance(
    accent: string, accent2: string, backgroundGlow: bool, compact: bool,
    themeId: string, customThemes: seq<ThemePreset>)

  datatype Home = Home(
    showDevicePicker: bool, showStats: bool, showTemps: bool, showNetworkPanel: bool,
    showMetricsTable: bool, showProcessesCard: bool, showDevicesList: bool)

  datatype TempCard = TempCard(id: string, enabled: bool, caption: string, sourceKey: string)

  datatype DataSettings = DataSettings(
    metricPollMs: real, deviceRefreshMs: real, sampleHistory: real, logMinutes: real)

  /** A version-2 configuration (the version field is always 2 and is left
      implicit). */
  datatype Config = Config(appearance: Appearance, home: Home, cards: seq<TempCard>, data: DataSettings)

  const DefaultCards: seq<TempCard> := [
    TempCard("cpu", true, "CPU Temp", "cpuTempC"),
    TempCard("gpu", true, "GPU Temp", "gpuTempC"),
    TempCard("board", false, "Board Temp", "boardTempC")]

  const Default: Config := Config(
    Appearance("#10b981", "#22d3ee", true, false, "emerald-teal", []),
    Home(true, true, true, true, true, true, true),
    DefaultCards,
    DataSettings(5000.0, 15000.0, 120.0, 10.0))

  /** The bounds of the data settings. */
  const PollRange: (real, real) := (1000.0, 60000.0)
  const RefreshRange: (real, real) := (2000.0, 60000.0)
  const HistoryRange: (real, real) := (20.0, 2000.0)
  const LogMinutesRange: (real, real) := (1.0, 720.0)

  const MaxCustomThemes: nat := 8
  const MaxCards: nat := 8
  const MaxNameLength: nat := 40
  const MaxThemeIdLength: nat := 60

  /** `clamp(n, min, max)`: `Math.max(min, Math.min(max, n))`. */
  function Clamp(n: real, lo: real, hi: real): (r: real)
    ensures lo <= hi ==> lo <= r <= hi
    ensures lo <= n <= hi ==> r == n
    ensures n < lo ==> r == lo
    ensures lo <= hi && n > hi ==> r == hi
  {
    var m := if hi <= n then hi else n;
    if lo >= m then lo else m
  }

  predicate HexDigit(c: char) {
    '0' <= c <= '9' || 'a' <= c <= 'f' || 'A' <= c <= 'F'
  }

  /** `/^#([0-9a-fA-F]{6})$/` on a string. */
  predicate HexColor(s: string) {
    |s| == 7 && s[0] == '#' && forall i :: 1 <= i < 7 ==> HexDigit(s[i])
  }

  /** `isHexColor(v)`: a string that is a six-digit hex colour. */
  predicate IsHexColor(v: Option<Value>) {
    v.Some? && v.value.JStr? && HexColor(v.value.s)
  }

  /** A string property cut to `n` characters, or `""` when it is not a
      string. */
  function TextField(v: Value, k: string, n: nat): (r: string)
    ensures |r| <= n
    ensures AsString(Field(Some(v), k)).Some? ==> r == Take(AsString(Field(Some(v), k)).value, n)
    ensures AsString(Field(Some(v), k)).None? ==> r == ""
  {
    match AsString(Field(Some(v), k))
    case Some(s) => Take(s, n)
    case None => ""
  }

  /** `cleanThemePreset(raw)`. */
  function CleanThemePreset(raw: Value): (r: Option<ThemePreset>)
    ensures r.Some? <==> (
      && raw.JObj?
      && IsHexColor(Field(Some(raw), "accent")) && IsHexColor(Field(Some(raw), "accent2"))
      && TextField(raw, "id", MaxNameLength) != "" && TextField(raw, "name", MaxNameLength) != "")
    ensures r.Some? ==> (
      && HexColor(r.value.accent) && HexColor(r.value.accent2)
      && 0 < |r.value.id| <= MaxNameLength && 0 < |r.value.name| <= MaxNameLength
      && r.value.backgroundGlow == AsBool(Field(Some(raw), "backgroundGlow"))
      && r.value.compact == AsBool(Field(Some(raw), "compact")))
  {
    if !(Truthy(raw) && IsObjectLike(raw)) then None
    else if !IsHexColor(Field(Some(raw), "accent")) || !IsHexColor(Field(Some(raw), "accent2")) then None
    else
      var id := TextField(raw, "id", MaxNameLength);
      var name := TextField(raw, "name", MaxNameLength);
      if id == "" || name == "" then None
      else Some(ThemePreset(id, name, Field(Some(raw), "accent").value.s, Field(Some(raw), "accent2").value.s,
        AsBool(Field(Some(raw), "backgroundGlow")), AsBool(Field(Some(raw), "compact"))))
  }

  /** One entry of `temps.cards`, or `None` when the loop skips it. */
  function CleanCard(c: Value): (r: Option<TempCard>)
    ensures r.Some? ==> (
      && 0 < |r.value.id| <= MaxNameLength && 0 < |r.value.caption| <= MaxNameLength
      && r.value.sourceKey != ""
      && r.value.enabled == AsBool(Field(Some(c), "enabled")).GetOr(true))
    ensures r.Some? <==> (
      && Truthy(c) && IsObjectLike(c)
      && TextField(c, "id", MaxNameLength) != "" && TextField(c, "label", MaxNameLength) != ""
      && AsString(Field(Some(c), "sourceKey")).Some? && AsString(Field(Some(c), "sourceKey")).value != "")
  {
    if !(Truthy(c) && IsObjectLike(c)) then None
    else
      var id := TextField(c, "id", MaxNameLength);
      var caption := TextField(c, "label", MaxNameLength);
      var enabled := AsBool(Field(Some(c), "enabled")).GetOr(true);
      match AsString(Field(Some(c), "sourceKey"))
      case Some(key) =>
        if id == "" || caption == "" || key == "" then None else Some(TempCard(id, enabled, caption, key))
      case None => None
  }

  /** `raw.<k> ?? {}`. */
  function Section(raw: Value, k: string): Value {
    Coalesce(Field(Some(raw), k), Some(JObj(map[]))).value
  }

  /** A boolean setting: the stored value when it is a boolean, else `dflt`. */
  function Flag(v: Value, k: string, dflt: bool): (r: bool)
    ensures AsBool(Field(Some(v), k)).Some? ==> r == AsBool(Field(Some(v), k)).value
    ensures AsBool(Field(Some(v), k)).None? ==> r == dflt
  {
    AsBool(Field(Some(v), k)).GetOr(dflt)
  }

  /** An accent colour: the stored value when it is a hex colour, else `dflt`. */
  function Accent(v: Value, k: string, dflt: string): (r: string)
    requires HexColor(dflt)
    ensures HexColor(r)
    ensures IsHexColor(Field(Some(v), k)) ==> r == Field(Some(v), k).value.s
    ensures !IsHexColor(Field(Some(v), k)) ==> r == dflt
  {
    if IsHexColor(Field(Some(v), k)) then Field(Some(v), k).value.s else dflt
  }

  /** A numeric setting: the stored number clamped into `[lo, hi]`, or
      `dflt` when no number is stored. */
  function Bounded(v: Value, k: string, lo: real, hi: real, dflt: real): (r: real)
    requires lo <= dflt <= hi
    ensures lo <= r <= hi
    ensures AsNumber(Field(Some(v), k)).None? ==> r == dflt
    ensures AsNumber(Field(Some(v), k)).Some? && lo <= AsNumber(Field(Some(v), k)).value <= hi ==>
      r == AsNumber(Field(Some(v), k)).value
  {
    match AsNumber(Field(Some(v), k))
    case Some(n) => Clamp(n, lo, hi)
    case None => dflt
  }

  predicate CleanTheme(t: ThemePreset) {
    HexColor(t.accent) && HexColor(t.accent2) && 0 < |t.id| <= MaxNameLength && 0 < |t.name| <= MaxNameLength
  }

  predicate CleanCardShape(c: TempCard) {
    0 < |c.id| <= MaxNameLength && 0 < |c.caption| <= MaxNameLength && c.sourceKey != ""
  }

  /** `ap.customThemes` when it is an array: at most eight presets, each of
      them clean. */
  function CustomThemes(ap: Value): (r: seq<ThemePreset>)
    ensures |r| <= MaxCustomThemes
    ensures forall t :: t in r ==> CleanTheme(t)
  {
    match Field(Some(ap), "customThemes")
    case Some(JArr(items)) =>
      KeptAreClean(items, CleanThemePreset, MaxCustomThemes);
      CollectUpTo(items, CleanThemePreset, [], MaxCustomThemes)
    case _ => Default.appearance.customThemes
  }

  function NormalizeAppearance(ap: Value): (r: Appearance)
    ensures HexColor(r.accent) && HexColor(r.accent2)
    ensures |r.themeId| <= MaxThemeIdLength
    ensures |r.customThemes| <= MaxCustomThemes
    ensures forall t :: t in r.customThemes ==> CleanTheme(t)
  {
    var d := Default.appearance;
    assert HexColor(d.accent) && HexColor(d.accent2);
    Appearance(
      accent := Accent(ap, "accent", d.accent),
      accent2 := Accent(ap, "accent2", d.accent2),
      backgroundGlow := Flag(ap, "backgroundGlow", d.backgroundGlow),
      compact := Flag(ap, "compact", d.compact),
      themeId := match AsString(Field(Some(ap), "themeId")) case Some(s) => Take(s, MaxThemeIdLength) case None => d.themeId,
      customThemes := CustomThemes(ap))
  }

  /** What the collection loop keeps is among what cleaning produced. */
  lemma KeptAreClean<T>(xs: seq<Value>, clean: Value -> Option<T>, cap: nat)
    requires cap > 0
    ensures forall t :: t in CollectUpTo(xs, clean, [], cap) ==> exists x :: x in xs && clean(x) == Some(t)
  {
    CollectIsFirstKept(xs, clean, [], cap);
    var all := Kept(xs, clean);
    forall t | t in CollectUpTo(xs, clean, [], cap) ensures exists x :: x in xs && clean(x) == Some(t) {
      assert t in all;
      KeptComesFrom(xs, clean, t);
    }
  }

  lemma {:induction false} KeptComesFrom<T>(xs: seq<Value>, clean: Value -> Option<T>, t: T)
    requires t in Kept(xs, clean)
    ensures exists x :: x in xs && clean(x) == Some(t)
  {
    if clean(xs[0]) != Some(t) {
      assert t in Kept(xs[1..], clean);
      KeptComesFrom(xs[1..], clean, t);
      var x :| x in xs[1..] && clean(x) == Some(t);
      assert x in xs;
    }
  }

  /** Each of the seven home flags is the stored boolean, or `true`. */
  function NormalizeHome(home: Value): Home
  {
    Home(Flag(home, "showDevicePicker", true), Flag(home, "showStats", true), Flag(home, "showTemps", true),
      Flag(home, "showNetworkPanel", true), Flag(home, "showMetricsTable", true),
      Flag(home, "showProcessesCard", true), Flag(home, "showDevicesList", true))
  }

  /** `raw.temps ?? null`. */
  function Temps(raw: Value): Value {
    Coalesce(Field(Some(raw), "temps"), Some(JNull)).value
  }

  /** The card array of `temps`, when it is an object carrying one. */
  function CardArray(temps: Value): (r: Option<seq<Value>>)
    ensures r.Some? <==> IsObjectLike(temps) && Field(Some(temps), "cards").Some? && Field(Some(temps), "cards").value.JArr?
    ensures r.Some? ==> Field(Some(temps), "cards") == Some(JArr(r.value))
  {
    var cards := Field(Some(temps), "cards");
    if Truthy(temps) && IsObjectLike(temps) && cards.Some? && cards.value.JArr? then Some(cards.value.items)
    else None
  }

  /** `temps.cards` cleaned; the default cards stay when there is no card
      array or when no card survives. (A version-1 configuration gets the
      default cards too, which the output already holds.) */
  function NormalizeCards(temps: Value): (r: seq<TempCard>)
    ensures 0 < |r| <= MaxCards
    ensures forall c :: c in r ==> CleanCardShape(c)
  {
    match CardArray(temps)
    case Some(items) =>
      var cleaned := CollectUpTo(items, CleanCard, [], MaxCards);
      KeptAreClean(items, CleanCard, MaxCards);
      if |cleaned| > 0 then cleaned else DefaultCards
    case None => DefaultCards
  }

  function NormalizeData(data: Value): (r: DataSettings)
    ensures PollRange.0 <= r.metricPollMs <= PollRange.1
    ensures RefreshRange.0 <= r.deviceRefreshMs <= RefreshRange.1
    ensures HistoryRange.0 <= r.sampleHistory <= HistoryRange.1
    ensures LogMinutesRange.0 <= r.logMinutes <= LogMinutesRange.1
  {
    var d := Default.data;
    DataSettings(
      Bounded(data, "metricPollMs", PollRange.0, PollRange.1, d.metricPollMs),
      Bounded(data, "deviceRefreshMs", RefreshRange.0, RefreshRange.1, d.deviceRefreshMs),
      Bounded(data, "sampleHistory", HistoryRange.0, HistoryRange.1, d.sampleHistory),
      Bounded(data, "logMinutes", LogMinutesRange.0, LogMinutesRange.1, d.logMinutes))
  }

  /** `normalize(raw)`. */
  function Normalize(raw: Value): (r: Config)
    ensures !(Truthy(raw) && IsObjectLike(raw)) ==> r == Default
    ensures Truthy(raw) && IsObjectLike(raw) ==> (
      && r.appearance == NormalizeAppearance(Section(raw, "appearance"))
      && r.home == NormalizeHome(Section(raw, "home"))
      && r.cards == NormalizeCards(Temps(raw))
      && r.data == NormalizeData(Section(raw, "data")))
  {
    if !(Truthy(raw) && IsObjectLike(raw)) then Default
    else Config(
      NormalizeAppearance(Section(raw, "appearance")),
      NormalizeHome(Section(raw, "home")),
      NormalizeCards(Temps(raw)),
      NormalizeData(Section(raw, "data")))
  }

  /** The invariant every normalised configuration satisfies, defaults
      included. */
  predicate Valid(c: Config) {
    && HexColor(c.appearance.accent) && HexColor(c.appearance.accent2)
    && |c.appearance.themeId| <= MaxThemeIdLength
    && |c.appearance.customThemes| <= MaxCustomThemes
    && (forall t :: t in c.appearance.customThemes ==> CleanTheme(t))
    && 0 < |c.cards| <= MaxCards
    && (forall k :: k in c.cards ==> CleanCardShape(k))
    && PollRange.0 <= c.data.metricPollMs <= PollRange.1
    && RefreshRange.0 <= c.data.deviceRefreshMs <= RefreshRange.1
    && HistoryRange.0 <= c.data.sampleHistory <= HistoryRange.1
    && LogMinutesRange.0 <= c.data.logMinutes <= LogMinutesRange.1
  }

  /** Whatever was stored, the normalised configuration is valid. */
  lemma NormalizeIsValid(raw: Value)
    ensures Valid(Normalize(raw))
  {
    assert HexColor(Default.appearance.accent) && HexColor(Default.appearance.accent2);
    assert forall k :: k in DefaultCards ==> CleanCardShape(k);
  }

  /** Custom themes are the first eight presets that survive cleaning, in
      their stored order. */
  lemma CustomThemesAreFirstEightClean(raw: Value, items: seq<Value>)
    requires raw.JObj?
    requires Field(Some(Section(raw, "appearance")), "customThemes") == Some(JArr(items))
    ensures var kept := Kept(items, CleanThemePreset);
      Normalize(raw).appearance.customThemes == kept[..Min(MaxCustomThemes, |kept|)]
  {
    var ap := Section(raw, "appearance");
    assert Normalize(raw).appearance == NormalizeAppearance(ap);
    assert CustomThemes(ap) == CollectUpTo(items, CleanThemePreset, [], MaxCustomThemes);
    CollectIsFirstKept(items, CleanThemePreset, [], MaxCustomThemes);
  }

  /** Temperature cards are the first eight that survive cleaning, or the
      default cards when none does. */
  lemma CardsAreFirstEightClean(raw: Value, items: seq<Value>)
    requires raw.JObj?
    requires CardArray(Temps(raw)) == Some(items)
    ensures var kept := Kept(items, CleanCard);
      Normalize(raw).cards == if |kept| == 0 then DefaultCards else kept[..Min(MaxCards, |kept|)]
  {
    assert Truthy(raw) && IsObjectLike(raw);
    CardsOfArray(Temps(raw), items);
  }

  lemma CardsOfArray(temps: Value, items: seq<Value>)
    requires CardArray(temps) == Some(items)
    ensures var kept := Kept(items, CleanCard);
      NormalizeCards(temps) == if |kept| == 0 then DefaultCards else kept[..Min(MaxCards, |kept|)]
  {
    var cleaned := CollectUpTo(items, CleanCard, [], MaxCards);
    assert NormalizeCards(temps) == if |cleaned| > 0 then cleaned else DefaultCards;
    CollectIsFirstKept(items, CleanCard, [], MaxCards);
  }

  lemma TakeAll(s: string, n: nat)
    requires |s| <= n
    ensures Take(s, n) == s
  {
  }

  // `JSON.stringify` of a configuration, as `saveUiConfig` stores it.

  function OptBool(k: string, b: Option<bool>): map<string, Value> {
    if b.Some? then map[k := JBool(b.value)] else map[]
  }

  function EncodeTheme(t: ThemePreset): Value {
    JObj(map["id" := JStr(t.id), "name" := JStr(t.name), "accent" := JStr(t.accent), "accent2" := JStr(t.accent2)]
      + OptBool("backgroundGlow", t.backgroundGlow) + OptBool("compact", t.compact))
  }

  function EncodeThemes(ts: seq<ThemePreset>): (r: seq<Value>)
    ensures |r| == |ts|
  {
    if |ts| == 0 then [] else [EncodeTheme(ts[0])] + EncodeThemes(ts[1..])
  }

  function EncodeCard(c: TempCard): Value {
    JObj(map["id" := JStr(c.id), "enabled" := JBool(c.enabled), "label" := JStr(c.caption), "sourceKey" := JStr(c.sourceKey)])
  }

  function EncodeCards(cs: seq<TempCard>): (r: seq<Value>)
    ensures |r| == |cs|
  {
    if |cs| == 0 then [] else [EncodeCard(cs[0])] + EncodeCards(cs[1..])
  }

  function EncodeTemps(cs: seq<TempCard>): Value {
    JObj(map["cards" := JArr(EncodeCards(cs))])
  }

  function EncodeAppearance(a: Appearance): Value {
    JObj(map[
      "accent" := JStr(a.accent), "accent2" := JStr(a.accent2),
      "backgroundGlow" := JBool(a.backgroundGlow), "compact" := JBool(a.compact),
      "themeId" := JStr(a.themeId), "customThemes" := JArr(EncodeThemes(a.customThemes))])
  }

  function EncodeHome(h: Home): Value {
    JObj(map[
      "showDevicePicker" := JBool(h.showDevicePicker), "showStats" := JBool(h.showStats),
      "showTemps" := JBool(h.showTemps), "showNetworkPanel" := JBool(h.showNetworkPanel),
      "showMetricsTable" := JBool(h.showMetricsTable), "showProcessesCard" := JBool(h.showProcessesCard),
      "showDevicesList" := JBool(h.showDevicesList)])
  }

  function EncodeData(d: DataSettings): Value {
    JObj(map[
      "metricPollMs" := JNum(d.metricPollMs), "deviceRefreshMs" := JNum(d.deviceRefreshMs),
      "sampleHistory" := JNum(d.sampleHistory), "logMinutes" := JNum(d.logMinutes)])
  }

  function Encode(c: Config): Value {
    JObj(map[
      "version" := JNum(2.0),
      "appearance" := EncodeAppearance(c.appearance),
      "home" := EncodeHome(c.home),
      "temps" := EncodeTemps(c.cards),
      "data" := EncodeData(c.data)])
  }

  /** A valid configuration survives saving and loading unchanged: storing
      it and normalising what was stored gives it back. */
  lemma SaveThenLoad(c: Config)
    requires Valid(c)
    ensures Normalize(Encode(c)) == c
  {
    EncodedSections(c);
    AppearanceRoundTrip(c.appearance);
    HomeRoundTrip(c.home);
    DataRoundTrip(c.data);
    CardsRoundTrip(c.cards);
  }

  lemma EncodedSections(c: Config)
    ensures Truthy(Encode(c)) && IsObjectLike(Encode(c))
    ensures Section(Encode(c), "appearance") == EncodeAppearance(c.appearance)
    ensures Section(Encode(c), "home") == EncodeHome(c.home)
    ensures Section(Encode(c), "data") == EncodeData(c.data)
    ensures Temps(Encode(c)) == EncodeTemps(c.cards)
  {
    var raw := Encode(c);
    assert Field(Some(raw), "appearance") == Some(EncodeAppearance(c.appearance));
    assert Field(Some(raw), "home") == Some(EncodeHome(c.home));
    assert Field(Some(raw), "data") == Some(EncodeData(c.data));
    assert Field(Some(raw), "temps") == Some(EncodeTemps(c.cards));
  }

  lemma AppearanceRoundTrip(a: Appearance)
    requires HexColor(a.accent) && HexColor(a.accent2) && |a.themeId| <= MaxThemeIdLength
    requires |a.customThemes| <= MaxCustomThemes
    requires forall t :: t in a.customThemes ==> CleanTheme(t)
    ensures NormalizeAppearance(EncodeAppearance(a)) == a
  {
    var ap := EncodeAppearance(a);
    AppearanceFields(a);
    AccentsRoundTrip(a);
    CustomThemesRoundTrip(a);
    FlagOfBool(ap, "backgroundGlow", a.backgroundGlow, Default.appearance.backgroundGlow);
    FlagOfBool(ap, "compact", a.compact, Default.appearance.compact);
    TakeAll(a.themeId, MaxThemeIdLength);
  }

  /** The saved appearance section holds each setting under its own name. */
  lemma AppearanceFields(a: Appearance)
    ensures var av := Some(EncodeAppearance(a));
      && Field(av, "accent") == Some(JStr(a.accent))
      && Field(av, "accent2") == Some(JStr(a.accent2))
      && Field(av, "backgroundGlow") == Some(JBool(a.backgroundGlow))
      && Field(av, "compact") == Some(JBool(a.compact))
      && Field(av, "themeId") == Some(JStr(a.themeId))
      && Field(av, "customThemes") == Some(JArr(EncodeThemes(a.customThemes)))
  {
  }

  lemma AccentsRoundTrip(a: Appearance)
    requires HexColor(a.accent) && HexColor(a.accent2)
    ensures HexColor(Default.appearance.accent) && HexColor(Default.appearance.accent2)
    ensures Accent(EncodeAppearance(a), "accent", Default.appearance.accent) == a.accent
    ensures Accent(EncodeAppearance(a), "accent2", Default.appearance.accent2) == a.accent2
  {
    AppearanceFields(a);
    assert HexColor(Default.appearance.accent) && HexColor(Default.appearance.accent2);
  }

  lemma CustomThemesRoundTrip(a: Appearance)
    requires |a.customThemes| <= MaxCustomThemes
    requires forall t :: t in a.customThemes ==> CleanTheme(t)
    ensures CustomThemes(EncodeAppearance(a)) == a.customThemes
  {
    var ap := EncodeAppearance(a);
    var enc := EncodeThemes(a.customThemes);
    AppearanceFields(a);
    assert CustomThemes(ap) == CollectUpTo(enc, CleanThemePreset, [], MaxCustomThemes);
    ThemesRoundTrip(a.customThemes);
    CollectIsFirstKept(enc, CleanThemePreset, [], MaxCustomThemes);
    assert Kept(enc, CleanThemePreset)[..Min(MaxCustomThemes, |a.customThemes|)] == a.customThemes;
  }

  lemma HomeRoundTrip(h: Home)
    ensures NormalizeHome(EncodeHome(h)) == h
  {
    HomeFields(h);
    var hv := EncodeHome(h);
    FlagOfBool(hv, "showDevicePicker", h.showDevicePicker, true);
    FlagOfBool(hv, "showStats", h.showStats, true);
    FlagOfBool(hv, "showTemps", h.showTemps, true);
    FlagOfBool(hv, "showNetworkPanel", h.showNetworkPanel, true);
    FlagOfBool(hv, "showMetricsTable", h.showMetricsTable, true);
    FlagOfBool(hv, "showProcessesCard", h.showProcessesCard, true);
    FlagOfBool(hv, "showDevicesList", h.showDevicesList, true);
  }

  /** The saved home section holds each flag under its own name. */
  lemma HomeFields(h: Home)
    ensures var hv := Some(EncodeHome(h));
      && Field(hv, "showDevicePicker") == Some(JBool(h.showDevicePicker))
      && Field(hv, "showStats") == Some(JBool(h.showStats))
      && Field(hv, "showTemps") == Some(JBool(h.showTemps))
      && Field(hv, "showNetworkPanel") == Some(JBool(h.showNetworkPanel))
      && Field(hv, "showMetricsTable") == Some(JBool(h.showMetricsTable))
      && Field(hv, "showProcessesCard") == Some(JBool(h.showProcessesCard))
      && Field(hv, "showDevicesList") == Some(JBool(h.showDevicesList))
  {
  }

  /** A stored boolean is read back as itself. */
  lemma FlagOfBool(v: Value, k: string, b: bool, dflt: bool)
    requires Field(Some(v), k) == Some(JBool(b))
    ensures Flag(v, k, dflt) == b
  {
  }

  lemma DataRoundTrip(d: DataSettings)
    requires PollRange.0 <= d.metricPollMs <= PollRange.1
    requires RefreshRange.0 <= d.deviceRefreshMs <= RefreshRange.1
    requires HistoryRange.0 <= d.sampleHistory <= HistoryRange.1
    requires LogMinutesRange.0 <= d.logMinutes <= LogMinutesRange.1
    ensures NormalizeData(EncodeData(d)) == d
  {
  }

  lemma CardsRoundTrip(cs: seq<TempCard>)
    requires 0 < |cs| <= MaxCards
    requires forall c :: c in cs ==> CleanCardShape(c)
    ensures NormalizeCards(EncodeTemps(cs)) == cs
  {
    var enc := EncodeCards(cs);
    var temps := EncodeTemps(cs);
    assert Field(Some(temps), "cards") == Some(JArr(enc));
    assert CardArray(temps) == Some(enc);
    CardListRoundTrip(cs);
    CollectIsFirstKept(enc, CleanCard, [], MaxCards);
    assert Kept(enc, CleanCard)[..Min(MaxCards, |cs|)] == cs;
    assert CollectUpTo(enc, CleanCard, [], MaxCards) == cs;
  }

  lemma {:induction false} ThemesRoundTrip(ts: seq<ThemePreset>)
    requires forall t :: t in ts ==> CleanTheme(t)
    ensures Kept(EncodeThemes(ts), CleanThemePreset) == ts
  {
    if |ts| > 0 {
      var t := ts[0];
      assert t in ts;
      ThemeRoundTrip(t);
      assert EncodeThemes(ts)[1..] == EncodeThemes(ts[1..]);
      assert forall u :: u in ts[1..] ==> u in ts;
      ThemesRoundTrip(ts[1..]);
    }
  }

  lemma {:induction false} CardListRoundTrip(cs: seq<TempCard>)
    requires forall c :: c in cs ==> CleanCardShape(c)
    ensures Kept(EncodeCards(cs), CleanCard) == cs
  {
    if |cs| > 0 {
      var c := cs[0];
      assert c in cs;
      CardRoundTrip(c);
      assert EncodeCards(cs)[1..] == EncodeCards(cs[1..]);
      assert forall u :: u in cs[1..] ==> u in cs;
      CardListRoundTrip(cs[1..]);
    }
  }

  /** One clean preset survives saving and cleaning unchanged. */
  lemma ThemeRoundTrip(t: ThemePreset)
    requires CleanTheme(t)
    ensures CleanThemePreset(EncodeTheme(t)) == Some(t)
  {
    var tv := Some(EncodeTheme(t));
    assert Field(tv, "id") == Some(JStr(t.id));
    assert Field(tv, "name") == Some(JStr(t.name));
    assert Field(tv, "accent") == Some(JStr(t.accent));
    assert Field(tv, "accent2") == Some(JStr(t.accent2));
    assert AsBool(Field(tv, "backgroundGlow")) == t.backgroundGlow;
    assert AsBool(Field(tv, "compact")) == t.compact;
    TakeAll(t.id, MaxNameLength);
    TakeAll(t.name, MaxNameLength);
  }

  /** One clean card survives saving and cleaning unchanged. */
  lemma CardRoundTrip(c: TempCard)
    requires CleanCardShape(c)
    ensures CleanCard(EncodeCard(c)) == Some(c)
  {
    var cv := Some(EncodeCard(c));
    assert Field(cv, "id") == Some(JStr(c.id));
    assert Field(cv, "enabled") == Some(JBool(c.enabled));
    assert Field(cv, "label") == Some(JStr(c.caption));
    assert Field(cv, "sourceKey") == Some(JStr(c.sourceKey));
    TakeAll(c.id, MaxNameLength);
    TakeAll(c.caption, MaxNameLength);
  }
}
