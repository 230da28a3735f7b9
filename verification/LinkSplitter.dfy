/**
 * The entry splitter of core_summary (tools/352_plus_probe.py): link-format entries, as in
 * section 2 of RFC 6690, are separated by the commas outside quotes and angle brackets.
 */
module LinkSplitter {

  const MAX_BYTES := 32768

  datatype Flags = Flags(quote: bool, angle: bool, escaped: bool)

  const START := Flags(false, false, false)

  /** A comma that separates entries. */
  predicate Separates(flags: Flags, c: char)
  {
    c == ',' && !flags.quote && !flags.angle
  }

  /** The flags after a character that does not separate. */
  function Advance(flags: Flags, c: char): Flags
  {
    if flags.escaped then flags.(escaped := false)
    else if c == '\\' && flags.quote then flags.(escaped := true)
    else if c == '\"' then flags.(quote := !flags.quote)
    else if !flags.quote && c == '<' then flags.(angle := true)
    else if !flags.quote && c == '>' then flags.(angle := false)
    else flags
  }

  function Clip(text: string): string
  {
    if |text| <= MAX_BYTES then text else text[..MAX_BYTES]
  }

  /** The splitter with its loop over the characters. */
  method SplitEntries(text: string) returns (entries: seq<string>)
    ensures entries == Entries(text)
  {
    var clipped := Clip(text);
    entries := [];
    var current, flags := "", START;
    for i := 0 to |clipped|
      invariant (entries, current, flags) == Scan(clipped[..i])
    {
      var c := clipped[i];
      assert clipped[..i + 1][..i] == clipped[..i];
      if c == ',' && !flags.quote && !flags.angle {
        entries := entries + [current];
        current := "";
      } else {
        current := current + [c];
        if flags.escaped {
          flags := flags.(escaped := false);
        } else if c == '\\' && flags.quote {
          flags := flags.(escaped := true);
        } else if c == '\"' {
          flags := flags.(quote := !flags.quote);
        } else if !flags.quote && c == '<' {
          flags := flags.(angle := true);
        } else if !flags.quote && c == '>' {
          flags := flags.(angle := false);
        }
      }
    }
    assert clipped[..|clipped|] == clipped;
    if current != "" {
      entries := entries + [current];
    }
  }

  /** The loop state after a text: finished entries, the current one, the flags. */
  function Scan(text: string): (seq<string>, string, Flags)
  {
    if text == "" then ([], "", START)
    else
      var (entries, current, flags) := Scan(text[..|text| - 1]);
      var c := text[|text| - 1];
      if Separates(flags, c) then (entries + [current], "", flags)
      else (entries, current + [c], Advance(flags, c))
  }

  function Entries(text: string): seq<string>
  {
    var (entries, current, _) := Scan(Clip(text));
    if current != "" then entries + [current] else entries
  }

  // ---------------------------------------------------------------- what an entry is

  /** The flags after a text read without regard to separators. */
  function FlagsAfter(text: string): Flags
  {
    if text == "" then START else Advance(FlagsAfter(text[..|text| - 1]), text[|text| - 1])
  }

  /** Rescanned from the start, the text has no comma outside quotes and angle brackets. */
  ghost predicate OneEntry(text: string)
  {
    forall k :: 0 <= k < |text| ==> !Separates(FlagsAfter(text[..k]), text[k])
  }

  /** A separator may follow: the text leaves no quote or angle bracket open. */
  predicate Closed(text: string)
  {
    FlagsAfter(text) == START
  }

  /** Every entry followed by its comma. */
  function Terminated(entries: seq<string>): string
  {
    if entries == [] then ""
    else Terminated(entries[..|entries| - 1]) + entries[|entries| - 1] + ","
  }

  /** ",".join(entries). */
  function Join(entries: seq<string>): string
  {
    if entries == [] then ""
    else Terminated(entries[..|entries| - 1]) + entries[|entries| - 1]
  }

  lemma EscapeNeedsQuote(flags: Flags, c: char)
    requires flags.escaped ==> flags.quote
    ensures Advance(flags, c).escaped ==> Advance(flags, c).quote
    ensures Separates(flags, c) ==> flags == START
  {}

  lemma {:induction false} Extend(text: string, c: char)
    requires OneEntry(text) && !Separates(FlagsAfter(text), c)
    ensures OneEntry(text + [c]) && FlagsAfter(text + [c]) == Advance(FlagsAfter(text), c)
  {
    var longer := text + [c];
    assert longer[..|text|] == text;
    forall k | 0 <= k < |longer|
      ensures !Separates(FlagsAfter(longer[..k]), longer[k])
    {
      if k < |text| {
        assert longer[..k] == text[..k];
      }
    }
  }

  /** The scan remembers everything: finished entries with their commas, then the current one. */
  lemma {:induction false} ScanRebuilds(text: string)
    ensures text == Terminated(Scan(text).0) + Scan(text).1
  {
    hide Separates, Advance;
    if text != "" {
      var init, c := text[..|text| - 1], text[|text| - 1];
      ScanRebuilds(init);
      var (entries, current, flags) := Scan(init);
      assert text == init + [c];
      if Separates(flags, c) {
        SeparatorIsComma(flags, c);
        TerminatedMore(entries, current);
        assert Terminated(entries) + current + "," == (Terminated(entries) + current) + ",";
      } else {
        assert Terminated(entries) + current + [c] == Terminated(entries) + (current + [c]);
      }
    }
  }

  lemma SeparatorIsComma(flags: Flags, c: char)
    requires Separates(flags, c)
    ensures c == ','
  {}

  lemma TerminatedMore(entries: seq<string>, entry: string)
    ensures Terminated(entries + [entry]) == Terminated(entries) + entry + ","
  {
    assert (entries + [entry])[..|entries|] == entries;
  }

  ghost predicate GoodEntries(entries: seq<string>)
  {
    forall i :: 0 <= i < |entries| ==> OneEntry(entries[i]) && Closed(entries[i])
  }

  /** Every finished entry is closed and has no separator inside; so far the current one has none. */
  lemma {:induction false} ScanEntriesAreGood(text: string)
    ensures var (entries, current, flags) := Scan(text);
      && GoodEntries(entries)
      && OneEntry(current) && flags == FlagsAfter(current) && (flags.escaped ==> flags.quote)
  {
    hide OneEntry, FlagsAfter;
    if text == "" {
      EmptyEntry();
    } else {
      var init, c := text[..|text| - 1], text[|text| - 1];
      ScanEntriesAreGood(init);
      var (entries, current, flags) := Scan(init);
      EscapeNeedsQuote(flags, c);
      if Separates(flags, c) {
        EmptyEntry();
      } else {
        Extend(current, c);
      }
    }
  }

  lemma EmptyEntry()
    ensures OneEntry("") && FlagsAfter("") == START
  {}

  /**
   * The splitter loses nothing.  Joining its entries with commas gives back the first 32768
   * characters, less one comma exactly when that text ends in a separator; every entry,
   * rescanned on its own, has no separator inside, and every entry that a comma follows
   * leaves no quote or bracket open.
   */
  lemma NothingIsLost(text: string)
    ensures var clipped, entries := if |text| <= 32768 then text else text[..32768], Entries(text);
      var endsInSeparator := clipped != "" && Scan(clipped).1 == "";
      && clipped == Join(entries) + (if endsInSeparator then "," else "")
      && (forall i :: 0 <= i < |entries| ==> OneEntry(entries[i]))
      && (forall i :: 0 <= i < |entries| - 1 ==> Closed(entries[i]))
      && (endsInSeparator ==> Closed(entries[|entries| - 1]))
  {
    var clipped := Clip(text);
    ScanRebuilds(clipped);
    ScanEntriesAreGood(clipped);
    hide Scan, OneEntry, FlagsAfter;
    var (entries, current, flags) := Scan(clipped);
    if current != "" {
      assert (entries + [current])[..|entries|] == entries;
      assert clipped == Join(entries + [current]) + "";
    } else if clipped != "" {
      assert entries != [];
      assert Terminated(entries) == Join(entries) + ",";
      assert clipped == Terminated(entries);
    }
  }

  // ---------------------------------------------------------------- the only such splitting

  /** Reading one entry after finished ones does not depend on them. */
  lemma {:induction false} ScanOfEntry(before: string, entry: string)
    requires OneEntry(entry)
    requires Scan(before).1 == "" && Scan(before).2 == START
    ensures Scan(before + entry) == (Scan(before).0, entry, FlagsAfter(entry))
    decreases |entry|
  {
    hide Scan, OneEntry, Separates, Advance;
    if entry == "" {
      assert before + entry == before;
    } else {
      var init, c := entry[..|entry| - 1], entry[|entry| - 1];
      OneEntryInit(entry);
      ScanOfEntry(before, init);
      ScanStep(before + init, c);
      LastApart(before, entry);
    }
  }

  lemma LastApart(before: string, entry: string)
    requires entry != ""
    ensures before + entry == (before + entry[..|entry| - 1]) + [entry[|entry| - 1]]
    ensures entry == entry[..|entry| - 1] + [entry[|entry| - 1]]
  {}

  lemma ScanStep(text: string, c: char)
    requires !Separates(Scan(text).2, c)
    ensures Scan(text + [c]) == (Scan(text).0, Scan(text).1 + [c], Advance(Scan(text).2, c))
  {
    assert (text + [c])[..|text|] == text;
  }

  lemma EmptyScan()
    ensures Scan("") == ([], "", START)
  {}

  lemma ScanSeparator(text: string)
    requires Scan(text).2 == START
    ensures Scan(text + ",") == (Scan(text).0 + [Scan(text).1], "", START)
  {
    assert (text + ",")[..|text|] == text;
  }

  lemma OneEntryInit(entry: string)
    requires OneEntry(entry) && entry != ""
    ensures OneEntry(entry[..|entry| - 1])
    ensures !Separates(FlagsAfter(entry[..|entry| - 1]), entry[|entry| - 1])
  {
    var init := entry[..|entry| - 1];
    forall k | 0 <= k < |init|
      ensures !Separates(FlagsAfter(init[..k]), init[k])
    {
      assert init[..k] == entry[..k];
    }
  }

  lemma {:induction false} ScanOfTerminated(entries: seq<string>)
    requires forall i :: 0 <= i < |entries| ==> OneEntry(entries[i]) && Closed(entries[i])
    ensures Scan(Terminated(entries)) == (entries, "", START)
  {
    hide Scan, OneEntry, FlagsAfter;
    if entries == [] {
      EmptyScan();
    } else {
      var init, last := entries[..|entries| - 1], entries[|entries| - 1];
      ScanOfTerminated(init);
      ScanOfEntry(Terminated(init), last);
      ScanSeparator(Terminated(init) + last);
      assert init + [last] == entries;
    }
  }

  /**
   * Conversely the splitter finds any splitting there is: entries without inner separators,
   * closed before each comma, come back unchanged when joined, unless the last one is empty.
   */
  lemma JoinedEntriesComeBack(entries: seq<string>)
    requires entries != [] && |Join(entries)| <= 32768
    requires forall i :: 0 <= i < |entries| ==> OneEntry(entries[i])
    requires forall i :: 0 <= i < |entries| - 1 ==> Closed(entries[i])
    ensures Entries(Join(entries))
         == if entries[|entries| - 1] == "" then entries[..|entries| - 1] else entries
  {
    hide Scan, OneEntry, FlagsAfter;
    var init, last := entries[..|entries| - 1], entries[|entries| - 1];
    ScanOfTerminated(init);
    ScanOfEntry(Terminated(init), last);
    assert Join(entries) == Terminated(init) + last;
    assert init + [last] == entries;
  }
}
