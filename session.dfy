/** The installer's configuration dictionary (`self.config`): an insertion-ordered map
    from key to value, filled in by the installer and by the terminal UI. */
module Session {
  import opened Text

  /** The locale bundle built by `LocaleManager` (a dict with five string fields). */
  datatype LocaleConfig = LocaleConfig(
    locale: string,
    lang: string,
    timeFormat: string,
    numberFormat: string,
    currencyFormat: string)

  /** The Python values the installer stores: strings, `None`, `use_swap`'s bool and the locale dict. */
  datatype Value = Str(s: string) | NoneValue | Flag(b: bool) | Locale(bundle: LocaleConfig)

  /** Python truthiness, as in `if self.config['username']:`. */
  predicate Truthy(v: Value) {
    match v
    case Str(s) => s != []
    case NoneValue => false
    case Flag(b) => b
    case Locale(_) => true
  }

  /** Python's `str(value)`; the locale dict shows each field with `repr`. */
  function Render(v: Value): string {
    match v
    case Str(s) => s
    case NoneValue => "None"
    case Flag(b) => if b then "True" else "False"
    case Locale(c) => "{" + ReprFields(LocaleFields(c)) + "}"
  }

  /** The locale dict's items in insertion order. */
  function LocaleFields(c: LocaleConfig): seq<(string, string)> {
    [("locale", c.locale), ("lang", c.lang), ("time_format", c.timeFormat),
     ("number_format", c.numberFormat), ("currency_format", c.currencyFormat)]
  }

  /** The items of a dict of strings as `repr` joins them; the keys are plain names. */
  function ReprFields(fields: seq<(string, string)>): string
    decreases |fields|
  {
    if fields == [] then []
    else if |fields| == 1 then "'" + fields[0].0 + "': " + PyRepr(fields[0].1)
    else "'" + fields[0].0 + "': " + PyRepr(fields[0].1) + ", " + ReprFields(fields[1..])
  }

  lemma ReprFieldsCons(k: string, v: string, rest: seq<(string, string)>)
    requires rest != []
    ensures ReprFields([(k, v)] + rest) == "'" + k + "': " + PyRepr(v) + ", " + ReprFields(rest)
  {
    assert ([(k, v)] + rest)[1..] == rest;
  }

  lemma KeyLiterals()
    ensures "'" + "locale" + "': " == "'locale': "
    ensures "'" + "lang" + "': " == "'lang': "
    ensures "'" + "time_format" + "': " == "'time_format': "
    ensures "'" + "number_format" + "': " == "'number_format': "
    ensures "'" + "currency_format" + "': " == "'currency_format': "
  {
  }

  /** The locale dict shows its five fields in insertion order, each as `repr` writes it. */
  lemma RenderLocaleFields(c: LocaleConfig)
    ensures Render(Locale(c))
      == "{" + ("'locale': " + PyRepr(c.locale) + ", "
         + ("'lang': " + PyRepr(c.lang) + ", "
         + ("'time_format': " + PyRepr(c.timeFormat) + ", "
         + ("'number_format': " + PyRepr(c.numberFormat) + ", "
         + ("'currency_format': " + PyRepr(c.currencyFormat)))))) + "}"
  {
    var f4 := [("currency_format", c.currencyFormat)];
    var f3 := [("number_format", c.numberFormat)] + f4;
    var f2 := [("time_format", c.timeFormat)] + f3;
    var f1 := [("lang", c.lang)] + f2;
    assert LocaleFields(c) == [("locale", c.locale)] + f1;
    ReprFieldsCons("locale", c.locale, f1);
    ReprFieldsCons("lang", c.lang, f2);
    ReprFieldsCons("time_format", c.timeFormat, f3);
    ReprFieldsCons("number_format", c.numberFormat, f4);
    KeyLiterals();
  }

  /** A bundle whose fields need no escaping shows each field between single quotes. */
  lemma RenderPlainLocale(c: LocaleConfig)
    requires ReprPlain(c.locale) && ReprPlain(c.lang) && ReprPlain(c.timeFormat)
    requires ReprPlain(c.numberFormat) && ReprPlain(c.currencyFormat)
    ensures Render(Locale(c))
      == "{" + ("'locale': " + ("'" + c.locale + "'") + ", "
         + ("'lang': " + ("'" + c.lang + "'") + ", "
         + ("'time_format': " + ("'" + c.timeFormat + "'") + ", "
         + ("'number_format': " + ("'" + c.numberFormat + "'") + ", "
         + ("'currency_format': " + ("'" + c.currencyFormat + "'")))))) + "}"
  {
    RenderLocaleFields(c);
    PyReprPlain(c.locale);
    PyReprPlain(c.lang);
    PyReprPlain(c.timeFormat);
    PyReprPlain(c.numberFormat);
    PyReprPlain(c.currencyFormat);
  }

  predicate Distinct(ks: seq<string>) {
    forall i, j :: 0 <= i < j < |ks| ==> ks[i] != ks[j]
  }

  /** The effect of `d[key] = v` on the key order and the contents. */
  predicate Assigned(ks0: seq<string>, vs0: map<string, Value>, ks1: seq<string>, vs1: map<string, Value>,
                     key: string, v: Value)
  {
    && vs1 == vs0[key := v]
    && ks1 == if key in vs0 then ks0 else ks0 + [key]
  }

  class Config {
    /** The keys in insertion order, as `dict.items()` yields them. */
    var keys: seq<string>
    var values: map<string, Value>

    ghost predicate Valid()
      reads this
    {
      && (forall k :: k in values <==> k in keys)
      && Distinct(keys)
    }

    constructor ()
      ensures Valid() && keys == [] && values == map[]
    {
      keys := [];
      values := map[];
    }

    /** `config[key] = v`: a new key goes to the end, an existing key keeps its place. */
    method Set(key: string, v: Value)
      requires Valid()
      modifies this
      ensures Valid()
      ensures Assigned(old(keys), old(values), keys, values, key, v)
    {
      if key !in values {
        keys := keys + [key];
      }
      values := values[key := v];
    }

    /** `config.items()`. */
    function Items(): (r: seq<(string, Value)>)
      reads this
      requires Valid()
      ensures |r| == |keys|
      ensures forall i :: 0 <= i < |r| ==> r[i].0 == keys[i] && r[i].1 == values[keys[i]]
    {
      seq(|keys|, i requires 0 <= i < |keys| && keys[i] in values reads this => (keys[i], values[keys[i]]))
    }
  }
}
