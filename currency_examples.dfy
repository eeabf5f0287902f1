/**
 * The currency utilities on the inputs their documentation and design
 * notes use as examples, derived from the definitions in module Currency.
 */
module CurrencyExamples {
  import opened Currency
  import opened Text
  import opened Wrappers
  import Seqs

  /** An exact key: 'en-GB' is the third entry and no earlier key equals it. */
  lemma EnGbIsGbp()
    ensures GetCurrencyForLocale("en-GB") == "GBP"
  {
    assert LocaleCurrencies[0].0 != "en-GB" by { assert LocaleCurrencies[0].0[3] == 'U'; }
    assert LocaleCurrencies[1].0 != "en-GB" by { assert LocaleCurrencies[1].0[3] == 'C'; }
    ExactPicks(LocaleCurrencies, "en-GB", 2);
  }

  lemma NoKeyEndsInZz()
    ensures forall i :: 0 <= i < |LocaleCurrencies| ==> LocaleCurrencies[i].0[3..] != "ZZ"
  {
  }

  /** An unknown English region falls back to the first English entry, 'en-US'. */
  lemma EnZzIsUsd()
    ensures GetCurrencyForLocale("en-ZZ") == "USD"
  {
    NoKeyEndsInZz();
    forall i | 0 <= i < |LocaleCurrencies| ensures LocaleCurrencies[i].0 != "en-ZZ" {
      assert "en-ZZ"[3..] == "ZZ";
    }
    assert LanguageCode("en-ZZ") == "en";
    FallbackPicks(LocaleCurrencies, "en-ZZ", 0);
  }

  lemma NoKeyIsPtBr()
    ensures forall i :: 0 <= i < |LocaleCurrencies| ==> LocaleCurrencies[i].0[0] != 'p' || LocaleCurrencies[i].0[3] != 'B'
    ensures forall j :: 0 <= j < 11 ==> LocaleCurrencies[j].0[0] != 'p'
  {
  }

  /** Brazilian Portuguese is not a key; the first Portuguese entry is 'pt-PT', so the result is EUR. */
  lemma PtBrIsEur()
    ensures GetCurrencyForLocale("pt-BR") == "EUR"
  {
    NoKeyIsPtBr();
    forall i | 0 <= i < |LocaleCurrencies| ensures LocaleCurrencies[i].0 != "pt-BR" {
      assert "pt-BR"[0] == 'p' && "pt-BR"[3] == 'B';
    }
    assert LanguageCode("pt-BR") == "pt";
    forall j | 0 <= j < 11 ensures !KeyOfLanguage(LocaleCurrencies[j].0, "pt") {
      assert ("pt" + "-")[0] == 'p';
    }
    assert KeyOfLanguage(LocaleCurrencies[11].0, "pt");
    FallbackPicks(LocaleCurrencies, "pt-BR", 11);
  }

  lemma TableKeysHaveLanguage()
    ensures KeysHaveLanguage(LocaleCurrencies)
  {
  }

  /** The empty locale has the empty language, no key starts with '-', so the result is USD. */
  lemma EmptyLocaleIsUsd()
    ensures GetCurrencyForLocale("") == "USD"
  {
    TableKeysHaveLanguage();
    assert LanguageCode("") == "";
    forall i | 0 <= i < |LocaleCurrencies| ensures !KeyOfLanguage(LocaleCurrencies[i].0, "") {
      assert LocaleCurrencies[i].0[0] != '-';
    }
    UnknownLanguageIsUsd(LocaleCurrencies, "");
  }

  lemma UsdSymbol()
    ensures CurrencySymbolFallback("USD") == "$"
  {
  }

  /** A code without a fallback entry is returned unchanged. */
  lemma UnknownCodeIsItsOwnSymbol()
    ensures CurrencySymbolFallback("XXX") == "XXX"
  {
  }

  /** A plain decimal string parses to its value. */
  lemma ParsePlain()
    ensures ParseFloat("1234.56") == Some(1234.56)
  {
    PlainWhole();
    PlainFraction();
    assert "1234.56"[4..] == ".56";
    assert ".56"[1..] == "56";
  }

  /** The integer part of "1234.56" is read as 1234. */
  lemma PlainWhole()
    ensures LeadingDigits("1234.56") == "1234"
    ensures DigitsValue("1234") == 1234
  {
    assert LeadingDigits(".56") == "";
    assert "4.56"[1..] == ".56";
    assert "34.56"[1..] == "4.56";
    assert "234.56"[1..] == "34.56";
    assert "1234.56"[1..] == "234.56";
    assert "1234"[..3] == "123";
    assert "123"[..2] == "12";
    assert "12"[..1] == "1";
    assert "1"[..0] == "";
  }

  /** The fraction part "56" is read as 0.56. */
  lemma PlainFraction()
    ensures LeadingDigits("56") == "56"
    ensures FractionValue("56") == 0.56
  {
    assert "56"[1..] == "6";
    assert "6"[1..] == "";
  }

  lemma CleanKeepsAll(s: string)
    requires forall i :: 0 <= i < |s| ==> IsNumberChar(s[i])
    ensures CleanAmount(s) == s
  {
    Seqs.FilterAll(s, IsNumberChar);
  }

  lemma UsSeparators()
    ensures LastIndexOf("1,234.56", '.') == 5
    ensures LastIndexOf("1,234.56", ',') == 1
  {
    assert "1,234.56"[..7] == "1,234.5";
    assert "1,234.5"[..6] == "1,234.";
    assert "1,234."[..5] == "1,234";
    assert "1,234"[..4] == "1,23";
    assert "1,23"[..3] == "1,2";
    assert "1,2"[..2] == "1,";
  }

  /** A thousands separator after the first digit, and no other, is dropped entirely. */
  lemma SeparatorAfterFirstDigitDropped(d: char, sep: char, rest: string)
    requires d != sep && sep !in rest
    ensures RemoveAll([d, sep] + rest, sep) == [d] + rest
  {
    RemoveAbsent(rest, sep);
    assert ([d, sep] + rest)[1..] == [sep] + rest;
    assert ([sep] + rest)[1..] == rest;
  }

  /**
   * Either sample amount loses its thousands separator: the two separators
   * are parameters so that one proof serves both conventions.
   */
  lemma ThousandsSeparatorDropped(sep: char, point: char)
    requires sep != point && sep !in "123456"
    ensures RemoveAll(['1', sep, '2', '3', '4', point, '5', '6'], sep) == ['1', '2', '3', '4', point, '5', '6']
  {
    SeparatorAfterFirstDigitDropped('1', sep, ['2', '3', '4', point, '5', '6']);
  }

  /** A sample amount made of number characters only is kept whole by cleaning. */
  lemma SampleClean(sep: char, point: char)
    requires IsNumberChar(sep) && IsNumberChar(point)
    ensures CleanAmount(['1', sep, '2', '3', '4', point, '5', '6']) == ['1', sep, '2', '3', '4', point, '5', '6']
  {
    CleanKeepsAll(['1', sep, '2', '3', '4', point, '5', '6']);
  }

  /** The US-style amount, whose last '.' follows its last ',', loses its comma. */
  lemma UsNormalized()
    ensures NormalizeSeparators("1,234.56") == "1234.56"
  {
    UsSeparators();
    ThousandsSeparatorDropped(',', '.');
  }

  lemma EuropeanSeparators()
    ensures LastIndexOf("1.234,56", ',') == 5
    ensures LastIndexOf("1.234,56", '.') == 1
  {
    assert "1.234,56"[..7] == "1.234,5";
    assert "1.234,5"[..6] == "1.234,";
    assert "1.234,"[..5] == "1.234";
    assert "1.234"[..4] == "1.23";
    assert "1.23"[..3] == "1.2";
    assert "1.2"[..2] == "1.";
  }

  /** The first comma of the period-free European amount becomes the decimal point. */
  lemma EuropeanDecimalComma()
    ensures ReplaceFirst("1234,56", ',', '.') == "1234.56"
  {
    assert "1234,56" == "1234" + [','] + "56";
    ReplaceFirstAt("1234", ',', "56", '.');
  }

  /**
   * The European-style amount, whose last ',' follows its last '.', loses
   * its period and has its comma turned into the decimal point.
   */
  lemma EuropeanNormalized()
    ensures NormalizeSeparators("1.234,56") == "1234.56"
  {
    EuropeanSeparators();
    ThousandsSeparatorDropped('.', ',');
    EuropeanDecimalComma();
  }

  /** Both separator conventions parse to the same amount. */
  lemma SeparatorConventions()
    ensures ParseCurrencyInput("1,234.56") == 1234.56
    ensures ParseCurrencyInput("1.234,56") == 1234.56
  {
    SampleClean(',', '.');
    SampleClean('.', ',');
    UsNormalized();
    EuropeanNormalized();
    ParsePlain();
  }

  lemma Letters()
    ensures ParseCurrencyInput("abc") == 0.0
  {
    NoDigitsParsesToZero("abc");
  }
}
