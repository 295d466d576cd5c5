/** The month token set (`textos_por_mes`): three placeholder/replacement pairs, in the
    order the scripts' dictionary lists them, and one marker that is deleted. The current
    year, read from the clock in the scripts, is a parameter here. */
module MonthTokens {
  import opened Strings

  const MonthNames: seq<string> := [
    "Enero", "Febrero", "Marzo", "Abril", "Mayo", "Junio",
    "Julio", "Agosto", "Septiembre", "Octubre", "Noviembre", "Diciembre"
  ]

  const PeriodKey: string := "textoPeriodo"
  const EffectiveKey: string := "textoRigeAPartirDe"
  const DuringKey: string := "textoDuranteElMes"
  const DeletionMarker: string := "No se presenta ninguna incapacidad..."

  /** The placeholders, in the dictionary's insertion order (the order they are applied). */
  const Placeholders: seq<string> := [PeriodKey, EffectiveKey, DuringKey]

  /** Placeholder/replacement pairs in application order, and the text to delete. */
  datatype TokenSet = TokenSet(replacements: seq<(string, string)>, marker: string)

  function KeysOf(t: TokenSet): (ks: seq<string>)
    ensures |ks| == |t.replacements|
    ensures forall i :: 0 <= i < |ks| ==> ks[i] == t.replacements[i].0
  {
    seq(|t.replacements|, i requires 0 <= i < |t.replacements| => t.replacements[i].0)
  }

  function PeriodText(month: string, year: nat): string
  {
    month + ", " + DecimalText(year)
  }

  function EffectiveText(month: string, year: nat): string
  {
    "1ero de " + month + " a 30 de " + month + ", " + DecimalText(year)
  }

  function DuringText(month: string): string
  {
    "durante el mes de " + Lower(month)
  }

  /** `textos_por_mes` of the batch script: any month text is accepted. */
  function TokensFor(month: string, year: nat): (t: TokenSet)
    ensures KeysOf(t) == Placeholders
    ensures t.marker == DeletionMarker
  {
    TokenSet([(PeriodKey, PeriodText(month, year)),
              (EffectiveKey, EffectiveText(month, year)),
              (DuringKey, DuringText(month))],
             DeletionMarker)
  }

  /** `textos_por_mes` of the single-document script: the month is first looked up in the
      month-number table, which fails (KeyError) for a name outside the twelve. */
  function CheckedTokensFor(month: string, year: nat): (r: Option<TokenSet>)
    ensures r.Some? <==> month in MonthNames
    ensures r.Some? ==> KeysOf(r.value) == Placeholders && r.value.marker == DeletionMarker
  {
    if month in MonthNames then Some(TokensFor(month, year)) else None
  }

  // ---------------------------------------------------------------------------
  // Lemmas

  /** The period text can be read back: it determines both the month and the year. */
  lemma PeriodTextInjective(m1: string, y1: nat, m2: string, y2: nat)
    requires PeriodText(m1, y1) == PeriodText(m2, y2)
    ensures m1 == m2 && y1 == y2
  {
    var d1, d2 := DecimalText(y1), DecimalText(y2);
    var s := PeriodText(m1, y1);
    assert |m1| == |m2| by {
      LastCommaAfterMonth(m1, y1);
      LastCommaAfterMonth(m2, y2);
    }
    assert d1 == s[|m1| + 2..] == d2;
    assert m1 == s[..|m1|] == m2;
    ParseDecimalText(y1);
    ParseDecimalText(y2);
  }

  /** The comma that follows the month is the last comma of the period text. */
  lemma LastCommaAfterMonth(month: string, year: nat)
    ensures PeriodText(month, year)[|month|] == ','
    ensures forall i :: |month| < i < |PeriodText(month, year)| ==> PeriodText(month, year)[i] != ','
  {
    var d := DecimalText(year);
    var s := PeriodText(month, year);
    forall i | |month| + 2 <= i < |s| ensures s[i] != ',' {
      assert s[i] == d[i - |month| - 2];
    }
  }

  /** Different months or years give different token sets. */
  lemma TokensInjective(m1: string, y1: nat, m2: string, y2: nat)
    requires TokensFor(m1, y1) == TokensFor(m2, y2)
    ensures m1 == m2 && y1 == y2
  {
    assert TokensFor(m1, y1).replacements[0].1 == TokensFor(m2, y2).replacements[0].1;
    PeriodTextInjective(m1, y1, m2, y2);
  }

  lemma MonthNameHasNoX(month: string)
    requires month in MonthNames
    ensures 'x' !in month && 'X' !in month
  {
  }

  lemma NoXInMonthText(month: string, year: nat)
    requires 'x' !in month && 'X' !in month
    ensures 'x' !in PeriodText(month, year)
    ensures 'x' !in EffectiveText(month, year)
    ensures 'x' !in DuringText(month)
  {
    var d := DecimalText(year);
    assert 'x' !in d;
    var l := Lower(month);
    assert 'x' !in l by {
      forall i | 0 <= i < |l| ensures l[i] != 'x' {
        assert month[i] in month;
      }
    }
    assert PeriodText(month, year) == month + ", " + d;
    assert EffectiveText(month, year) == "1ero de " + month + " a 30 de " + month + ", " + d;
  }

  /** Every placeholder has 'x' as its third character. */
  lemma PlaceholderAnchor(k: string)
    requires k in Placeholders
    ensures |k| > 2 && k[2] == 'x'
  {
    assert k == PeriodKey || k == EffectiveKey || k == DuringKey;
  }

  /** For one of the twelve months, no replacement text contains a placeholder. */
  lemma ReplacementsKeyFree(month: string, year: nat, i: nat, k: string)
    requires month in MonthNames
    requires i < 3
    requires k in Placeholders
    ensures !Contains(TokensFor(month, year).replacements[i].1, k)
  {
    MonthNameHasNoX(month);
    ValuesKeyFree(month, year, i, k);
  }

  lemma ValuesKeyFree(month: string, year: nat, i: nat, k: string)
    requires 'x' !in month && 'X' !in month
    requires i < 3
    requires k in Placeholders
    ensures !Contains(TokensFor(month, year).replacements[i].1, k)
  {
    var v := TokensFor(month, year).replacements[i].1;
    assert 'x' !in v by {
      NoXInMonthText(month, year);
    }
    PlaceholderAnchor(k);
    if Contains(v, k) {
      ContainsChar(v, k, 2);
    }
  }
}
