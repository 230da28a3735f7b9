/** When a quote or an angle bracket is open in a link-format text, told without the splitter's flags. */
module LinkGrammar {
  import opened LinkSplitter

  /** The backslashes at the end of a text. */
  function Backslashes(text: string): nat
  {
    if text != "" && text[|text| - 1] == '\\' then 1 + Backslashes(text[..|text| - 1]) else 0
  }

  /** Every quotation mark opens or closes, but for one inside quotes behind an odd number of backslashes. */
  predicate QuoteOpen(text: string)
  {
    text != "" &&
    var init := text[..|text| - 1];
    if text[|text| - 1] == '\"' && !(QuoteOpen(init) && Backslashes(init) % 2 == 1) then !QuoteOpen(init) else QuoteOpen(init)
  }

  /** The last angle bracket outside quotes opens. */
  ghost predicate AngleOpen(text: string)
  {
    exists j :: OpensLast(text, j)
  }

  predicate OpensLast(text: string, j: nat)
  {
    && j < |text| && text[j] == '<' && !QuoteOpen(text[..j])
    && forall i :: j < i < |text| ==> !(text[i] == '>' && !QuoteOpen(text[..i]))
  }

  lemma {:induction false} AngleStep(init: string, c: char)
    ensures AngleOpen(init + [c])
       <==> if c == '<' && !QuoteOpen(init) then true else AngleOpen(init) && !(c == '>' && !QuoteOpen(init))
  {
    hide QuoteOpen;
    var text := init + [c];
    assert text[..|init|] == init;
    assert forall i :: 0 <= i < |init| ==> text[i] == init[i] && text[..i] == init[..i];
    if c == '<' && !QuoteOpen(init) {
      assert OpensLast(text, |init|);
    } else if AngleOpen(init) && !(c == '>' && !QuoteOpen(init)) {
      var j: nat :| OpensLast(init, j);
      assert OpensLast(text, j);
    } else if AngleOpen(text) {
      var j: nat :| OpensLast(text, j);
      OpensBefore(init, c, j);
    }
  }

  lemma OpensBefore(init: string, c: char, j: nat)
    requires OpensLast(init + [c], j)
    ensures j == |init| ==> c == '<' && !QuoteOpen(init)
    ensures j < |init| ==> OpensLast(init, j) && !(c == '>' && !QuoteOpen(init))
  {
    hide QuoteOpen;
    var text := init + [c];
    assert text[..|init|] == init;
    assert forall i :: 0 <= i < |init| ==> text[i] == init[i] && text[..i] == init[..i];
  }

  /** The flags are what they are for. */
  lemma {:induction false} FlagsMean(text: string)
    ensures FlagsAfter(text).quote <==> QuoteOpen(text)
    ensures FlagsAfter(text).angle <==> AngleOpen(text)
    ensures FlagsAfter(text).escaped <==> QuoteOpen(text) && Backslashes(text) % 2 == 1
  {
    if text != "" {
      var init, c := text[..|text| - 1], text[|text| - 1];
      FlagsMean(init);
      assert text == init + [c];
      AngleStep(init, c);
    }
  }

  /** Entries end at the commas outside quotes and angle brackets. */
  lemma SeparatesIff(text: string, c: char)
    ensures Separates(FlagsAfter(text), c) <==> c == ',' && !QuoteOpen(text) && !AngleOpen(text)
    ensures Closed(text) <==> !QuoteOpen(text) && !AngleOpen(text)
  {
    FlagsMean(text);
  }
}
