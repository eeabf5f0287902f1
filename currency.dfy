/**
 * The locale-independent part of the web client's currency utilities:
 * resolving a locale to a currency code, the fixed symbol table used when
 * the platform formatter rejects a code, and the normalisation of a typed
 * amount into a number.
 */
module Currency {
  import opened Wrappers
  import opened Text
  import Seqs

  /**
   * The locale-to-currency table in declaration order. The order matters:
   * the language fallback picks the first entry of a language.
   */
  const LocaleCurrencies: seq<(string, string)> := [
    ("en-US", "USD"), ("en-CA", "CAD"), ("en-GB", "GBP"), ("en-AU", "AUD"), ("en-NZ", "NZD"), ("en-IE", "EUR"),
    ("de-DE", "EUR"), ("fr-FR", "EUR"), ("es-ES", "EUR"), ("it-IT", "EUR"), ("nl-NL", "EUR"), ("pt-PT", "EUR"),
    ("fi-FI", "EUR"), ("at-AT", "EUR"), ("be-BE", "EUR"),
    ("ja-JP", "JPY"), ("ko-KR", "KRW"), ("zh-CN", "CNY"), ("zh-TW", "TWD"), ("zh-HK", "HKD"), ("ru-RU", "RUB"),
    ("pl-PL", "PLN"), ("tr-TR", "TRY"), ("in-IN", "INR"), ("th-TH", "THB"), ("id-ID", "IDR"), ("my-MY", "MYR"),
    ("sg-SG", "SGD"), ("ph-PH", "PHP"), ("br-BR", "BRL"), ("mx-MX", "MXN"), ("ar-AR", "ARS"), ("cl-CL", "CLP"),
    ("za-ZA", "ZAR"), ("eg-EG", "EGP"), ("sa-SA", "SAR"), ("ae-AE", "AED"), ("ch-CH", "CHF"), ("no-NO", "NOK"),
    ("se-SE", "SEK"), ("dk-DK", "DKK"), ("is-IS", "ISK")
  ]

  /** Every currency a table can produce. */
  function Currencies(table: seq<(string, string)>): set<string> {
    set i | 0 <= i < |table| :: table[i].1
  }

  /** The language code of a locale: its text before the first '-'. */
  function LanguageCode(locale: string): string {
    BeforeFirst(locale, '-')
  }

  /** A table key belongs to language `lang` when it starts with `lang` followed by '-'. */
  predicate KeyOfLanguage(key: string, lang: string) {
    StartsWith(key, lang + "-")
  }

  /** Every key of the table is a two-letter language, a '-' and a region. */
  predicate KeysHaveLanguage(table: seq<(string, string)>) {
    forall i :: 0 <= i < |table| ==> |table[i].0| == 5 && table[i].0[2] == '-' && table[i].0[0] != '-'
  }

  /**
   * Exact match first; then the first entry in declaration order whose key
   * has the locale's language; then "USD". Every table currency is a
   * non-empty string, so the source's truthiness test on the exact lookup
   * is a membership test.
   */
  function CurrencyFor(table: seq<(string, string)>, locale: string): (r: string)
    ensures r in Currencies(table) || r == "USD"
  {
    var exact := Seqs.FirstIndex(table, (e: (string, string)) => e.0 == locale);
    if exact < |table| then table[exact].1
    else
      var lang := LanguageCode(locale);
      var byLanguage := Seqs.FirstIndex(table, (e: (string, string)) => KeyOfLanguage(e.0, lang));
      if byLanguage < |table| then table[byLanguage].1
      else "USD"
  }

  /** `getCurrencyForLocale`: the resolution over the locale table. */
  function GetCurrencyForLocale(locale: string): (r: string)
    ensures r in Currencies(LocaleCurrencies) || r == "USD"
  {
    CurrencyFor(LocaleCurrencies, locale)
  }

  /** A locale that is a key of the table gets the currency that key is paired with. */
  lemma ExactLocaleMatch(table: seq<(string, string)>, locale: string)
    requires exists i :: 0 <= i < |table| && table[i].0 == locale
    ensures (locale, CurrencyFor(table, locale)) in table
  {
    var exact := Seqs.FirstIndex(table, (e: (string, string)) => e.0 == locale);
    var i :| 0 <= i < |table| && table[i].0 == locale;
    assert exact <= i;
    assert table[exact] == (locale, CurrencyFor(table, locale));
  }

  /** The exact match picks entry `i` when it is the first entry whose key is the locale. */
  lemma ExactPicks(table: seq<(string, string)>, locale: string, i: nat)
    requires i < |table| && table[i].0 == locale
    requires forall j :: 0 <= j < i ==> table[j].0 != locale
    ensures CurrencyFor(table, locale) == table[i].1
  {
    var exact := Seqs.FirstIndex(table, (e: (string, string)) => e.0 == locale);
    assert exact == i;
  }

  /** Otherwise the first entry in declaration order of the locale's language decides. */
  lemma LanguageFallback(table: seq<(string, string)>, locale: string)
    requires forall i :: 0 <= i < |table| ==> table[i].0 != locale
    requires exists i :: 0 <= i < |table| && KeyOfLanguage(table[i].0, LanguageCode(locale))
    ensures exists i ::
      && 0 <= i < |table|
      && KeyOfLanguage(table[i].0, LanguageCode(locale))
      && CurrencyFor(table, locale) == table[i].1
      && (forall j :: 0 <= j < i ==> !KeyOfLanguage(table[j].0, LanguageCode(locale)))
  {
    var lang := LanguageCode(locale);
    var exact := Seqs.FirstIndex(table, (e: (string, string)) => e.0 == locale);
    assert exact == |table|;
    var m := Seqs.FirstIndex(table, (e: (string, string)) => KeyOfLanguage(e.0, lang));
    var i :| 0 <= i < |table| && KeyOfLanguage(table[i].0, lang);
    assert m <= i;
    assert CurrencyFor(table, locale) == table[m].1;
  }

  /** The fallback picks entry `i` when it is the first of the locale's language and no key is the locale. */
  lemma FallbackPicks(table: seq<(string, string)>, locale: string, i: nat)
    requires forall j :: 0 <= j < |table| ==> table[j].0 != locale
    requires i < |table| && KeyOfLanguage(table[i].0, LanguageCode(locale))
    requires forall j :: 0 <= j < i ==> !KeyOfLanguage(table[j].0, LanguageCode(locale))
    ensures CurrencyFor(table, locale) == table[i].1
  {
    var exact := Seqs.FirstIndex(table, (e: (string, string)) => e.0 == locale);
    assert exact == |table|;
    var m := Seqs.FirstIndex(table, (e: (string, string)) => KeyOfLanguage(e.0, LanguageCode(locale)));
    assert m == i;
  }

  /** A locale whose language has no entry resolves to "USD" (an exact key would have had its language). */
  lemma UnknownLanguageIsUsd(table: seq<(string, string)>, locale: string)
    requires KeysHaveLanguage(table)
    requires forall i :: 0 <= i < |table| ==> !KeyOfLanguage(table[i].0, LanguageCode(locale))
    ensures CurrencyFor(table, locale) == "USD"
  {
    var lang := LanguageCode(locale);
    var exact := Seqs.FirstIndex(table, (e: (string, string)) => e.0 == locale);
    if exact < |table| {
      assert false;
    }
  }

  // ---- Fallback symbol table of getCurrencySymbol ----

  /** The symbols used when the platform formatter rejects a currency code. */
  const FallbackSymbols: map<string, string> := map[
    "USD" := "$", "EUR" := "€", "GBP" := "£", "JPY" := "¥", "CNY" := "¥", "KRW" := "₩", "INR" := "₹",
    "CAD" := "$", "AUD" := "$", "CHF" := "CHF", "SEK" := "kr", "NOK" := "kr", "DKK" := "kr"
  ]

  /** Every listed symbol is non-empty, so `symbol || code` only falls back to the code for unlisted codes. */
  function CurrencySymbolFallback(code: string): (r: string)
    ensures code in FallbackSymbols ==> r == FallbackSymbols[code]
    ensures code !in FallbackSymbols ==> r == code
  {
    if code in FallbackSymbols && FallbackSymbols[code] != "" then FallbackSymbols[code] else code
  }

  // ---- parseCurrencyInput ----

  predicate IsNumberChar(c: char) {
    IsDigit(c) || c == '.' || c == ','
  }

  /** `value.replace(/[^\d.,]/g, '')`: only ASCII digits, '.' and ',' survive, in order. */
  function CleanAmount(value: string): (r: string)
    ensures forall c :: c in r ==> IsNumberChar(c)
    ensures forall c :: c in value && IsNumberChar(c) ==> c in r
    ensures |r| <= |value|
  {
    Seqs.Filter(value, IsNumberChar)
  }

  /**
   * Decides the decimal separator: when the last ',' comes after the last
   * '.', periods are thousands separators and the first ',' becomes the
   * decimal point; otherwise commas are thousands separators.
   */
  function NormalizeSeparators(cleaned: string): string {
    if LastIndexOf(cleaned, ',') > LastIndexOf(cleaned, '.') then
      ReplaceFirst(RemoveAll(cleaned, '.'), ',', '.')
    else
      RemoveAll(cleaned, ',')
  }

  /** The longest prefix of `s` made of ASCII digits. */
  function LeadingDigits(s: string): (r: string)
    ensures r <= s
    ensures forall c :: c in r ==> IsDigit(c)
    ensures |r| < |s| ==> !IsDigit(s[|r|])
  {
    if s != [] && IsDigit(s[0]) then [s[0]] + LeadingDigits(s[1..]) else []
  }

  /** The integer a run of decimal digits denotes. */
  function DigitsValue(ds: string): (n: nat)
    requires forall c :: c in ds ==> IsDigit(c)
  {
    if ds == [] then 0
    else
      var d := ds[|ds| - 1];
      assert d in ds && IsDigit(d);
      assert forall c :: c in ds[..|ds| - 1] ==> c in ds;
      DigitsValue(ds[..|ds| - 1]) * 10 + (d as int - '0' as int)
  }

  /** The value of the digits after a decimal point: `0.d1d2...`. */
  function FractionValue(ds: string): (x: real)
    requires forall c :: c in ds ==> IsDigit(c)
    ensures 0.0 <= x < 1.0
  {
    if ds == [] then 0.0
    else
      var d := ds[0];
      assert d in ds && IsDigit(d);
      assert 0 <= d as int - '0' as int <= 9;
      ((d as int - '0' as int) as real + FractionValue(ds[1..])) / 10.0
  }

  /**
   * `parseFloat` on a string of digits, '.' and ',': the longest prefix of
   * the form `digits [ '.' digits ]` with at least one digit; `None` stands
   * for NaN.
   */
  function ParseFloat(s: string): (r: Option<real>)
    ensures r.Some? ==> r.value >= 0.0
    ensures r.None? <==> !((|s| > 0 && IsDigit(s[0])) || (|s| > 1 && s[0] == '.' && IsDigit(s[1])))
  {
    var whole := LeadingDigits(s);
    var rest := s[|whole|..];
    if |rest| > 0 && rest[0] == '.' then
      var fraction := LeadingDigits(rest[1..]);
      if |whole| + |fraction| == 0 then None
      else Some(DigitsValue(whole) as real + FractionValue(fraction))
    else if |whole| == 0 then None
    else Some(DigitsValue(whole) as real)
  }

  /** The number a typed amount denotes; 0 when nothing parses. */
  function ParseCurrencyInput(value: string): (r: real)
    ensures r >= 0.0
  {
    ParseFloat(NormalizeSeparators(CleanAmount(value))).GetOr(0.0)
  }

  /** Normalisation adds no digit: it only deletes characters or turns ',' into '.'. */
  lemma NormalizeKeepsDigits(cleaned: string)
    ensures forall c :: c in NormalizeSeparators(cleaned) && IsDigit(c) ==> c in cleaned
  {
    forall c | c in NormalizeSeparators(cleaned) && IsDigit(c) ensures c in cleaned {
      if LastIndexOf(cleaned, ',') > LastIndexOf(cleaned, '.') {
        ReplaceFirstChars(RemoveAll(cleaned, '.'), ',', '.');
      }
    }
  }

  lemma {:induction false} ReplaceFirstChars(s: string, a: char, b: char)
    ensures forall c :: c in ReplaceFirst(s, a, b) ==> c in s || c == b
  {
    if s != [] && s[0] != a {
      ReplaceFirstChars(s[1..], a, b);
    }
  }

  /** An input with no digit at all parses to 0. */
  lemma NoDigitsParsesToZero(value: string)
    requires forall c :: c in value ==> !IsDigit(c)
    ensures ParseCurrencyInput(value) == 0.0
  {
    var normalized := NormalizeSeparators(CleanAmount(value));
    NormalizeKeepsDigits(CleanAmount(value));
    assert forall c :: c in normalized ==> !IsDigit(c);
    if |normalized| > 0 {
      assert normalized[0] in normalized;
    }
    if |normalized| > 1 {
      assert normalized[1] in normalized;
    }
  }

  /**
   * When the last ',' follows the last '.', the comma is the decimal
   * separator: every period is dropped, the first remaining comma becomes the
   * one and only '.', every later comma stays, and the digits keep their order.
   */
  lemma CommaDecimalBranch(cleaned: string)
    requires LastIndexOf(cleaned, ',') > LastIndexOf(cleaned, '.')
    ensures var dropped := Seqs.Filter(cleaned, IsNotChar('.'));
            var point := IndexOf(dropped, ',');
            var r := NormalizeSeparators(cleaned);
            0 <= point < |r| == |dropped| && r[point] == '.'
            && (forall j :: 0 <= j < |r| && j != point ==> r[j] == dropped[j] && r[j] != '.')
            && (forall j :: 0 <= j < point ==> r[j] != ',')
    ensures Seqs.Filter(NormalizeSeparators(cleaned), IsDigit) == Seqs.Filter(cleaned, IsDigit)
  {
    var dropped := RemoveAll(cleaned, '.');
    RemoveAllIsFilter(cleaned, '.');
    assert cleaned[LastIndexOf(cleaned, ',')] in cleaned;
    assert ',' in dropped;
    RemoveAllKeeps(cleaned, '.', IsDigit);
    ReplaceFirstKeeps(dropped, ',', '.', IsDigit);
    ReplaceFirstChangesFirstOnly(dropped, ',', '.');
  }

  /**
   * Otherwise the period is the decimal separator: every comma is dropped,
   * and the digits and periods keep their order.
   */
  lemma PeriodDecimalBranch(cleaned: string)
    requires LastIndexOf(cleaned, ',') <= LastIndexOf(cleaned, '.')
    ensures NormalizeSeparators(cleaned) == Seqs.Filter(cleaned, IsNotChar(','))
    ensures ',' !in NormalizeSeparators(cleaned)
    ensures Seqs.Filter(NormalizeSeparators(cleaned), IsChar('.')) == Seqs.Filter(cleaned, IsChar('.'))
    ensures Seqs.Filter(NormalizeSeparators(cleaned), IsDigit) == Seqs.Filter(cleaned, IsDigit)
  {
    RemoveAllIsFilter(cleaned, ',');
    RemoveAllKeeps(cleaned, ',', IsChar('.'));
    RemoveAllKeeps(cleaned, ',', IsDigit);
  }

  /** Normalisation keeps the digits of the cleaned amount, in order, in both branches. */
  lemma NormalizeKeepsDigitOrder(cleaned: string)
    ensures Seqs.Filter(NormalizeSeparators(cleaned), IsDigit) == Seqs.Filter(cleaned, IsDigit)
  {
    if LastIndexOf(cleaned, ',') > LastIndexOf(cleaned, '.') {
      CommaDecimalBranch(cleaned);
    } else {
      PeriodDecimalBranch(cleaned);
    }
  }
}
