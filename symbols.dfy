/** The ticker normaliser: `normalize_symbol`. */
module Symbols {
  import opened Wrappers
  import opened Text

  datatype SymbolError = SymbolRequired

  /**
   * Fails only on a missing symbol or the empty string (Python's `not
   * symbol`); otherwise the stripped, upper-cased text, which has no
   * whitespace at either end and no lower-case ASCII letter.
   */
  function NormalizeSymbol(symbol: Option<string>): (r: Result<string, SymbolError>)
    ensures r.Err? <==> symbol == None || symbol == Some("")
    ensures r.Ok? ==> r.value == Upper(Strip(symbol.value))
    ensures r.Ok? ==> IsStripped(r.value)
    ensures r.Ok? ==> forall i :: 0 <= i < |r.value| ==> !('a' <= r.value[i] <= 'z')
  {
    if symbol == None || symbol == Some("") then Err(SymbolRequired)
    else
      StripIsStripped(symbol.value);
      CaseKeepsStripped(Strip(symbol.value));
      UpperHasNoLower(Strip(symbol.value));
      Ok(Upper(Strip(symbol.value)))
  }

  /** A blank but non-empty symbol is not rejected: it normalises to "". */
  lemma BlankSymbolIsAccepted(s: string)
    requires s != [] && AllSpace(s)
    ensures NormalizeSymbol(Some(s)) == Ok("")
  {
    StripEmpty(s);
  }

  /** Normalising a non-empty normalised symbol again changes nothing. */
  lemma NormalizeSymbolIdempotent(s: string)
    requires NormalizeSymbol(Some(s)).Ok? && NormalizeSymbol(Some(s)).value != ""
    ensures NormalizeSymbol(Some(NormalizeSymbol(Some(s)).value)) == NormalizeSymbol(Some(s))
  {
    var r := NormalizeSymbol(Some(s)).value;
    StripFixedPoint(r);
    UpperIdempotent(Strip(s));
  }

  /** Surrounding whitespace never matters: only the stripped text is upper-cased. */
  lemma NormalizeSymbolPadded(pre: string, core: string, post: string)
    requires AllSpace(pre) && AllSpace(post) && core != [] && IsStripped(core)
    ensures NormalizeSymbol(Some(pre + core + post)) == Ok(Upper(core))
  {
    StripPadded(pre, core, post);
  }

  lemma PaddingParts()
    ensures "  aapl " == "  " + "aapl" + " "
    ensures AllSpace("  ") && AllSpace(" ")
  {
  }

  lemma TickerStripped()
    ensures IsStripped("aapl")
  {
    if IsSpace('a') { SpaceIsNotLetter('a'); }
    if IsSpace('l') { SpaceIsNotLetter('l'); }
  }

  lemma TickerUpper()
    ensures Upper("aapl") == "AAPL"
  {
    var u := Upper("aapl");
    assert u[0] == 'A' && u[1] == 'A' && u[2] == 'P' && u[3] == 'L';
  }

  lemma NormalizeSymbolExample()
    ensures NormalizeSymbol(Some("  aapl ")) == Ok("AAPL")
  {
    PaddingParts();
    TickerStripped();
    TickerUpper();
    NormalizeSymbolPadded("  ", "aapl", " ");
  }
}
