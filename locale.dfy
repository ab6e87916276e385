/** `LocaleManager`: the locale dialog, the default bundle, the `locale.gen` and
    `locale.conf` texts and the per-user copy of `locale.conf`. */
module Locale {
  import opened Wrappers
  import opened Text
  import opened Trace
  import opened Session
  import opened Ui

  const DEFAULT_LOCALE := "en_US.UTF-8"
  const VI_LOCALE := "vi_VN.UTF-8"

  /** The bundle used when the user does not configure the locale. */
  function DefaultLocaleConfig(): (c: LocaleConfig)
    ensures c.locale == DEFAULT_LOCALE
    ensures c.lang == c.locale && c.timeFormat == c.locale
    ensures c.numberFormat == c.locale && c.currencyFormat == c.locale
  {
    LocaleConfig(DEFAULT_LOCALE, DEFAULT_LOCALE, DEFAULT_LOCALE, DEFAULT_LOCALE, DEFAULT_LOCALE)
  }

  // ---------------------------------------------------------------- the dialog

  /** The names `get_available_locales` offers: the lines of `locale -a`, or a fixed list
      when running it raises (`None`). */
  function AvailableLocales(out: Option<string>): (r: seq<string>)
    ensures |r| >= 1
    ensures out.None? ==> r == [DEFAULT_LOCALE, VI_LOCALE, "C.UTF-8"]
    ensures out.Some? ==> r == SplitOn(Strip(out.value), '\n')
  {
    match out
    case None => [DEFAULT_LOCALE, VI_LOCALE, "C.UTF-8"]
    case Some(s) => SplitOn(Strip(s), '\n')
  }

  /** What `get_locale_config` answers when it reads `keys`: the main locale from a menu, then
      four text fields whose defaults derive from it; the first unanswered prompt ends it. */
  function LocaleDialog(options: seq<string>, keys: seq<int>): Reply<LocaleConfig>
    requires |options| > 0
  {
    var m := MenuReply(options, keys);
    if !m.answer.Given? then Reply(Abandon(m.answer), m.rest)
    else
      var main := m.answer.value;
      var lang := InputReply(FirstField(main, '.'), m.rest);
      if !lang.answer.Given? then Reply(Abandon(lang.answer), lang.rest)
      else
        var time := InputReply(main, lang.rest);
        if !time.answer.Given? then Reply(Abandon(time.answer), time.rest)
        else
          var number := InputReply(main, time.rest);
          if !number.answer.Given? then Reply(Abandon(number.answer), number.rest)
          else
            var currency := InputReply(main, number.rest);
            if !currency.answer.Given? then Reply(Abandon(currency.answer), currency.rest)
            else Reply(Given(LocaleConfig(main, lang.answer.value, time.answer.value,
                                          number.answer.value, currency.answer.value)),
                       currency.rest)
  }

  /** Pressing ENTER at every prompt takes the first locale offered, `LANG` up to its first
      '.', and the locale itself for the three formats (each stripped, as `input` returns). */
  lemma DialogDefaults(options: seq<string>, rest: seq<int>)
    requires |options| > 0
    ensures var main := options[0];
      LocaleDialog(options, [10, 10, 10, 10, 10] + rest)
      == Reply(Given(LocaleConfig(main, Strip(FirstField(main, '.')), Strip(main), Strip(main), Strip(main))), rest)
  {
    var main := options[0];
    var k1 := [10] + rest;
    var k2 := [10] + k1;
    var k3 := [10] + k2;
    var k4 := [10] + k3;
    assert [10, 10, 10, 10, 10] + rest == [10] + k4;
    MenuFirstKey(options, k4);
    InputFirstKey(FirstField(main, '.'), k3);
    InputFirstKey(main, k2);
    InputFirstKey(main, k1);
    InputFirstKey(main, rest);
  }

  /** ESC at the locale menu cancels the dialog before any field is asked. */
  lemma DialogEscape(options: seq<string>, rest: seq<int>)
    requires |options| > 0
    ensures LocaleDialog(options, [ESC] + rest) == Reply(Cancelled, rest)
  {
    MenuFirstKey(options, rest);
  }

  /** `get_locale_config`: each answer is stored under its prompt's key as it is given. */
  method GetLocaleConfig(ui: CursesUI, config: Config, out: Option<string>) returns (r: Answer<LocaleConfig>)
    requires config.Valid()
    modifies ui, config
    ensures config.Valid()
    ensures var d := LocaleDialog(AvailableLocales(out), old(ui.keys)); r == d.answer && ui.keys == d.rest
    ensures r.Given? ==> config.values == old(config.values)["Main locale" := Str(r.value.locale)]
      ["LANG" := Str(r.value.lang)]["LC_TIME" := Str(r.value.timeFormat)]
      ["LC_NUMERIC" := Str(r.value.numberFormat)]["LC_MONETARY" := Str(r.value.currencyFormat)]
  {
    var options := AvailableLocales(out);
    var main := ui.Menu("Select main locale", options, config, "Main locale");
    if !main.Given? {
      return Abandon(main);
    }
    var lang := ui.Input("System language (LANG):", config, "LANG", false, FirstField(main.value, '.'));
    if !lang.Given? {
      return Abandon(lang);
    }
    var time := ui.Input("Time format (LC_TIME):", config, "LC_TIME", false, main.value);
    if !time.Given? {
      return Abandon(time);
    }
    var number := ui.Input("Number format (LC_NUMERIC):", config, "LC_NUMERIC", false, main.value);
    if !number.Given? {
      return Abandon(number);
    }
    var currency := ui.Input("Currency format (LC_MONETARY):", config, "LC_MONETARY", false, main.value);
    if !currency.Given? {
      return Abandon(currency);
    }
    return Given(LocaleConfig(main.value, lang.value, time.value, number.value, currency.value));
  }

  // ---------------------------------------------------------------- locale.gen

  const UTF8_SUFFIX := " UTF-8"
  const EN_ENTRY := DEFAULT_LOCALE + UTF8_SUFFIX
  const VI_ENTRY := VI_LOCALE + UTF8_SUFFIX

  /** The `locale.gen` entries to enable, each once (`list(set(...))`, taken here in the
      order of first occurrence). */
  function LocalesToEnable(locale: string): (r: seq<string>)
    ensures forall e :: e in r <==> e == EN_ENTRY || e == VI_ENTRY || e == locale + UTF8_SUFFIX
    ensures Distinct(r)
  {
    var own := locale + UTF8_SUFFIX;
    assert EN_ENTRY[0] != VI_ENTRY[0];
    if own == EN_ENTRY || own == VI_ENTRY then [EN_ENTRY, VI_ENTRY] else [EN_ENTRY, VI_ENTRY, own]
  }

  lemma AppendCancel(a: string, b: string, s: string)
    ensures a + s == b + s <==> a == b
  {
    if a + s == b + s {
      assert |a| == |b|;
      assert (a + s)[..|a|] == a && (b + s)[..|b|] == b;
    }
  }

  /** Two entries are enabled exactly when the chosen locale is one of the two always
      enabled; otherwise three. */
  lemma EnabledCount(locale: string)
    ensures 2 <= |LocalesToEnable(locale)| <= 3
    ensures |LocalesToEnable(locale)| == 2 <==> locale == DEFAULT_LOCALE || locale == VI_LOCALE
  {
    AppendCancel(locale, DEFAULT_LOCALE, UTF8_SUFFIX);
    AppendCancel(locale, VI_LOCALE, UTF8_SUFFIX);
  }

  /** The text after `content = content.replace("#" + e, e)` for each entry in turn. */
  function Uncommented(content: string, entries: seq<string>): string
    decreases |entries|
  {
    if entries == [] then content
    else
      var e := entries[|entries| - 1];
      Replace(Uncommented(content, entries[..|entries| - 1]), "#" + e, e)
  }

  /** The uncommenting loop of `setup_locale`. */
  method Uncomment(content: string, entries: seq<string>) returns (r: string)
    ensures r == Uncommented(content, entries)
  {
    r := content;
    for i := 0 to |entries|
      invariant r == Uncommented(content, entries[..i])
    {
      assert entries[..i + 1][..i] == entries[..i];
      r := Replace(r, "#" + entries[i], entries[i]);
    }
    assert entries[..|entries|] == entries;
  }

  /** A file without any '#' is left as it is, whichever entries are enabled. */
  lemma {:induction false} UncommentNoHash(content: string, entries: seq<string>)
    requires NoChar(content, '#')
    ensures Uncommented(content, entries) == content
    decreases |entries|
  {
    if entries != [] {
      var e := entries[|entries| - 1];
      UncommentNoHash(content, entries[..|entries| - 1]);
      AbsentLead(content, "#" + e);
      ReplaceAbsent(content, "#" + e, e);
    }
  }

  /** A commented-out entry on its own is enabled. */
  lemma UncommentLine(e: string)
    ensures Uncommented("#" + e, [e]) == e
  {
    var s := "#" + e;
    assert [e][..0] == [];
    assert s[..|s|] == s && s[|s|..] == [];
    assert Replace(s[|s|..], s, e) == [];
    assert e + [] == e;
  }

  lemma UncommentOne(content: string, e: string)
    ensures Uncommented(content, [e]) == Replace(content, "#" + e, e)
  {
    assert [e][..0] == [];
  }

  /** In a `locale.gen` of many lines, the commented-out line of an entry is enabled and the
      lines around it are left as they are, provided they do not hold the commented entry. */
  lemma UncommentEntryLine(a: string, e: string, b: string)
    requires NoChar(e, '\n')
    requires a == [] || a[|a| - 1] == '\n'
    requires !Contains(a, "#" + e) && !Contains(b, "#" + e)
    ensures Uncommented(a + "#" + e + "\n" + b, [e]) == a + e + "\n" + b
  {
    var p := "#" + e;
    assert NoChar(p, '\n') by {
      forall k | 0 < k < |p| ensures p[k] != '\n' { assert p[k] == e[k - 1]; }
    }
    assert a + "#" + e == a + p;
    LineRegroup(a, p, b);
    LineRegroup(a, e, b);
    UncommentOne(a + (p + ("\n" + b)), e);
    ReplaceLine(a, p, e, b);
  }

  // ---------------------------------------------------------------- locale.conf

  /** The four lines of `locale.conf`. */
  function LocaleConfLines(c: LocaleConfig): seq<string> {
    ["LANG=" + c.lang, "LC_TIME=" + c.timeFormat, "LC_NUMERIC=" + c.numberFormat, "LC_MONETARY=" + c.currencyFormat]
  }

  /** The `locale.conf` text written for the system and for the user. */
  function LocaleConfText(c: LocaleConfig): string {
    Lines(LocaleConfLines(c))
  }

  predicate SingleLine(c: LocaleConfig) {
    NoChar(c.lang, '\n') && NoChar(c.timeFormat, '\n') && NoChar(c.numberFormat, '\n') && NoChar(c.currencyFormat, '\n')
  }

  /** `locale.conf` is four newline-terminated lines, LANG, LC_TIME, LC_NUMERIC and
      LC_MONETARY, in that order, each set to its field, when no value spans lines. */
  lemma LocaleConfShape(c: LocaleConfig)
    requires SingleLine(c)
    ensures SplitOn(LocaleConfText(c), '\n')
         == ["LANG=" + c.lang, "LC_TIME=" + c.timeFormat, "LC_NUMERIC=" + c.numberFormat,
             "LC_MONETARY=" + c.currencyFormat, []]
  {
    var ls := LocaleConfLines(c);
    assert forall k :: 0 <= k < |ls| ==> NoChar(ls[k], '\n');
    SplitLines(ls);
  }

  // ---------------------------------------------------------------- setup

  const LOCALE_GEN := "/mnt/etc/locale.gen"
  const LOCALE_CONF := "/mnt/etc/locale.conf"
  const LOCALE_GEN_COMMAND := "arch-chroot /mnt locale-gen"

  /** What `setup_locale` does once `locale.gen` has been read. */
  function LocaleScript(conf: LocaleConfig, gen: string): seq<Effect> {
    [ Write(LOCALE_GEN, Uncommented(gen, LocalesToEnable(conf.locale))),
      Write(LOCALE_CONF, LocaleConfText(conf)),
      Run(LOCALE_GEN_COMMAND) ]
  }

  /** `setup_locale`, given the contents of `locale.gen` (`None` when it cannot be read). */
  function SetupLocale(conf: LocaleConfig, gen: Option<string>, failing: map<string, ExitStatus>): StepRun {
    match gen
    case None => StepRun([], Some(ReadFailed(LOCALE_GEN)))
    case Some(g) => Execute(LocaleScript(conf, g), failing)
  }

  method SetupLocaleRun(conf: LocaleConfig, gen: Option<string>, failing: map<string, ExitStatus>) returns (run: StepRun)
    ensures run == SetupLocale(conf, gen, failing)
  {
    if gen.None? {
      return StepRun([], Some(ReadFailed(LOCALE_GEN)));
    }
    var content := Uncomment(gen.value, LocalesToEnable(conf.locale));
    var script := [Write(LOCALE_GEN, content), Write(LOCALE_CONF, LocaleConfText(conf)), Run(LOCALE_GEN_COMMAND)];
    return Execute(script, failing);
  }

  /** An unreadable `locale.gen` raises before anything is written; otherwise both files are
      written, `locale.gen` first, and `locale-gen` is the only command, raising when it fails. */
  lemma SetupLocaleEffects(conf: LocaleConfig, gen: Option<string>, failing: map<string, ExitStatus>)
    ensures var r := SetupLocale(conf, gen, failing);
      && (gen.None? ==> r.effects == [] && r.error == Some(ReadFailed(LOCALE_GEN)))
      && (gen.Some? ==>
        && r.effects == LocaleScript(conf, gen.value)
        && Commands(r.effects) == [LOCALE_GEN_COMMAND]
        && (r.error.Some? <==> LOCALE_GEN_COMMAND in failing)
        && r.effects[0].path == LOCALE_GEN && r.effects[1] == Write(LOCALE_CONF, LocaleConfText(conf)))
  {
    if gen.Some? {
      var s := LocaleScript(conf, gen.value);
      assert s == [s[0], s[1]] + [Run(LOCALE_GEN_COMMAND)];
      ExecuteThenRun([s[0], s[1]], LOCALE_GEN_COMMAND, failing);
      CommandsAppend([s[0], s[1]], [Run(LOCALE_GEN_COMMAND)]);
    }
  }

  // ---------------------------------------------------------------- per-user copy

  function UserConfigDir(user: string): string {
    "/mnt/home/" + user + "/.config"
  }

  function ChownCommand(user: string): string {
    "arch-chroot /mnt chown -R " + user + ":" + user + " /home/" + user + "/.config"
  }

  /** `setup_user_locale(username, conf)`: nothing for a falsy user name; otherwise the
      configuration directory, the user's `locale.conf` and handing it to the user. */
  function UserLocaleScript(username: Value, conf: LocaleConfig): seq<Effect> {
    if !Truthy(username) then []
    else
      var u := Render(username);
      [ MakeDirs(UserConfigDir(u)),
        Write(UserConfigDir(u) + "/locale.conf", LocaleConfText(conf)),
        Run(ChownCommand(u)) ]
  }

  /** The user step does nothing exactly for a falsy user name; otherwise the user's file has
      the system `locale.conf` text, its directory exists first, and one `chown` follows. */
  lemma UserLocaleEffects(username: Value, conf: LocaleConfig, gen: string)
    ensures UserLocaleScript(username, conf) == [] <==> !Truthy(username)
    ensures Truthy(username) ==>
      var t := UserLocaleScript(username, conf);
      && Commands(t) == [ChownCommand(Render(username))]
      && |t| == 3
      && t[0] == MakeDirs(UserConfigDir(Render(username)))
      && t[1] == Write(UserConfigDir(Render(username)) + "/locale.conf", LocaleConfText(conf))
      && t[1].text == LocaleScript(conf, gen)[1].text
  {
    if Truthy(username) {
      var t := UserLocaleScript(username, conf);
      assert t == [t[0], t[1]] + [t[2]];
      CommandsAppend([t[0], t[1]], [t[2]]);
    }
  }
}
