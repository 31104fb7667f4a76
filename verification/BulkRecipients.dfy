/** The bulk-recipients text area: one entry per line, normalised to chat ids and de-duplicated. */
module BulkRecipients {
  import opened Options
  import opened Text
  import opened Numerals
  import opened OrderedSets

  // ---------------------------------------------------------------- lines

  /** `text.split('\n')` */
  function Split(text: string): (lines: seq<string>)
    ensures lines != []
  {
    if text == "" then [""]
    else
      var rest := Split(text[1..]);
      if text[0] == '\n' then [""] + rest else [[text[0]] + rest[0]] + rest[1..]
  }

  /** `lines.join('\n')` */
  function Join(lines: seq<string>): string {
    if lines == [] then "" else if |lines| == 1 then lines[0] else lines[0] + "\n" + Join(lines[1..])
  }

  lemma {:induction false} SplitOfJoined(a: string, b: string)
    ensures Split(a + "\n" + b) == Split(a) + Split(b)
  {
    if a == "" {
      assert (a + "\n" + b)[1..] == b;
    } else {
      assert (a + "\n" + b)[1..] == a[1..] + "\n" + b;
      SplitOfJoined(a[1..], b);
    }
  }

  lemma {:induction false} SplitOfLine(line: string)
    requires '\n' !in line
    ensures Split(line) == [line]
  {
    if line == "" {
    } else {
      SplitOfLine(line[1..]);
      assert [line[0]] + line[1..] == line;
    }
  }

  lemma {:induction false} SplitOfJoin(lines: seq<string>)
    requires lines != [] && forall line :: line in lines ==> '\n' !in line
    ensures Split(Join(lines)) == lines
  {
    SplitOfLine(lines[0]);
    if |lines| == 1 {
    } else {
      SplitOfJoined(lines[0], Join(lines[1..]));
      SplitOfJoin(lines[1..]);
    }
  }

  lemma {:induction false} SplitLinesHaveNoBreak(text: string)
    ensures forall line :: line in Split(text) ==> '\n' !in line
  {
    if text == "" {
    } else {
      SplitLinesHaveNoBreak(text[1..]);
    }
  }

  // ---------------------------------------------------------------- one line

  /** `line.replace(/[^0-9]/g, '')` */
  function DigitsOnly(line: string): (digits: string)
    ensures AllDigits(digits)
    ensures digits == "" <==> forall i :: 0 <= i < |line| ==> !IsDigit(line[i])
  {
    if line == "" then ""
    else if IsDigit(line[0]) then [line[0]] + DigitsOnly(line[1..])
    else DigitsOnly(line[1..])
  }

  const SUFFIX := "@c.us"

  /** The chat id a line stands for; None when the line is dropped. */
  function Normalize(rawLine: string): Option<string> {
    var line := Trim(rawLine);
    if line == "" then None
    else if '@' in line then Some(line)
    else if DigitsOnly(line) != "" then Some(DigitsOnly(line) + SUFFIX)
    else None
  }

  /** A chat id is an entry in normal form: it contains '@', has no line break, and stands for itself. */
  predicate ChatId(entry: string) {
    '@' in entry && '\n' !in entry && Normalize(entry) == Some(entry)
  }

  lemma NormalizedIsChatId(rawLine: string)
    requires '\n' !in rawLine && Normalize(rawLine).Some?
    ensures ChatId(Normalize(rawLine).value)
  {
    var line, entry := Trim(rawLine), Normalize(rawLine).value;
    var before, after := TrimSplits(rawLine);
    if '@' !in line {
      var digits := DigitsOnly(line);
      assert entry == digits + SUFFIX;
      assert entry[|digits|] == '@' && entry[0] == digits[0] && entry[|entry| - 1] == 's';
      assert Trimmed(entry);
    } else {
      assert forall i :: 0 <= i < |line| ==> line[i] == rawLine[|before| + i];
    }
    TrimOfTrimmed(entry);
  }

  // ---------------------------------------------------------------- the parser

  /** The chat ids of the lines, in order, with repetitions. */
  function Entries(lines: seq<string>): seq<string> {
    if lines == [] then []
    else
      var last := Normalize(lines[|lines| - 1]);
      Entries(lines[..|lines| - 1]) + if last.Some? then [last.value] else []
  }

  function Parsed(text: string): seq<string> {
    Distinct(Entries(Split(text)))
  }

  method ParseBulkRecipients(text: string) returns (recipients: seq<string>)
    ensures recipients == Parsed(text)
  {
    var lines := Split(text);
    var seen: seq<string> := [];
    for i := 0 to |lines|
      invariant seen == Distinct(Entries(lines[..i]))
    {
      assert lines[..i + 1][..i] == lines[..i];
      ghost var before := Entries(lines[..i]);
      var line := Trim(lines[i]);
      if line == "" {
        assert Entries(lines[..i + 1]) == before;
      } else if '@' in line {
        assert Entries(lines[..i + 1]) == before + [line];
        assert (before + [line])[..|before|] == before;
        seen := Add(seen, line);
      } else {
        var digits := DigitsOnly(line);
        if digits != "" {
          assert Entries(lines[..i + 1]) == before + [digits + SUFFIX];
          assert (before + [digits + SUFFIX])[..|before|] == before;
          seen := Add(seen, digits + SUFFIX);
        }
      }
    }
    assert lines[..|lines|] == lines;
    recipients := seen;
  }

  // ---------------------------------------------------------------- laws

  lemma {:induction false} EntriesAreNormalized(lines: seq<string>)
    ensures forall e :: e in Entries(lines) <==> exists line :: line in lines && Normalize(line) == Some(e)
  {
    if lines == [] {
    } else {
      var front, last := lines[..|lines| - 1], lines[|lines| - 1];
      EntriesAreNormalized(front);
      assert lines == front + [last];
      forall e
        ensures e in Entries(lines) <==> exists line :: line in lines && Normalize(line) == Some(e)
      {
        if e in Entries(lines) && e !in Entries(front) {
          assert last in lines && Normalize(last) == Some(e);
        }
      }
    }
  }

  lemma {:induction false} EntriesConcat(a: seq<string>, b: seq<string>)
    ensures Entries(a + b) == Entries(a) + Entries(b)
  {
    if b == [] {
      assert a + b == a;
    } else {
      assert (a + b)[..|a + b| - 1] == a + b[..|b| - 1];
      EntriesConcat(a, b[..|b| - 1]);
    }
  }

  lemma {:induction false} EntriesOfChatIds(ids: seq<string>)
    requires forall id :: id in ids ==> ChatId(id)
    ensures Entries(ids) == ids
  {
    if ids == [] {
    } else {
      EntriesOfChatIds(ids[..|ids| - 1]);
      assert ChatId(ids[|ids| - 1]);
    }
  }

  /**
    Normal form. The result holds exactly the chat ids the lines of the text stand for, each once,
    in the order in which they first occur, and every one of them is in normal form.
   */
  lemma ParsedIsNormalForm(text: string)
    ensures NoDup(Parsed(text))
    ensures forall e :: e in Parsed(text) <==> exists line :: line in Split(text) && Normalize(line) == Some(e)
    ensures forall e :: e in Parsed(text) ==> ChatId(e)
    ensures var ids := Entries(Split(text));
            forall i, j :: 0 <= i < j < |Parsed(text)| ==> First(ids, Parsed(text)[i]) < First(ids, Parsed(text)[j])
  {
    DistinctKeepsFirstOccurrences(Entries(Split(text)));
    EntriesAreNormalized(Split(text));
    SplitLinesHaveNoBreak(text);
    forall e | e in Parsed(text) ensures ChatId(e) {
      var line :| line in Split(text) && Normalize(line) == Some(e);
      NormalizedIsChatId(line);
    }
  }

  /** Parsing the result, written one entry per line, gives the same result. */
  lemma ParsedRoundTrip(text: string)
    ensures Parsed(Join(Parsed(text))) == Parsed(text)
  {
    var ids := Parsed(text);
    ParsedIsNormalForm(text);
    if ids == [] {
      TrimOfTrimmed("");
      assert Split("")[..0] == [];
    } else {
      SplitOfJoin(ids);
      EntriesOfChatIds(ids);
      DistinctOfNoDup(ids);
    }
  }

  /** Concatenation: two texts on separate lines parse to the first result, then what the second adds to it. */
  lemma ParsedConcatenation(a: string, b: string)
    ensures Parsed(a + "\n" + b) == Parsed(a) + Minus(Parsed(b), Parsed(a))
  {
    SplitOfJoined(a, b);
    EntriesConcat(Split(a), Split(b));
    AddAllConcat([], Entries(Split(a)), Entries(Split(b)));
    AddAllIsAppend(Parsed(a), Entries(Split(b)));
  }

  // ---------------------------------------------------------------- what one line stands for

  lemma {:induction false} DigitsOnlyConcat(a: string, b: string)
    ensures DigitsOnly(a + b) == DigitsOnly(a) + DigitsOnly(b)
  {
    if a == "" {
      assert a + b == b;
    } else {
      assert (a + b)[1..] == a[1..] + b;
      DigitsOnlyConcat(a[1..], b);
    }
  }

  lemma {:induction false} DigitsOnlyOfDigits(digits: string)
    requires AllDigits(digits)
    ensures DigitsOnly(digits) == digits
  {
    if digits == "" {
    } else {
      DigitsOnlyOfDigits(digits[1..]);
    }
  }

  lemma DigitsOnlyOfTrim(line: string)
    ensures DigitsOnly(Trim(line)) == DigitsOnly(line)
  {
    var before, after := TrimSplits(line);
    DigitsOnlyConcat(before + Trim(line), after);
    DigitsOnlyConcat(before, Trim(line));
  }

  /** Digits with a separating text before, between and after them. */
  function Spread(digits: string, seps: seq<string>): string
    requires |seps| == |digits| + 1
  {
    if digits == "" then seps[0] else seps[0] + ([digits[0]] + Spread(digits[1..], seps[1..]))
  }

  lemma {:induction false} DigitsOfSpread(digits: string, seps: seq<string>)
    requires AllDigits(digits) && |seps| == |digits| + 1
    requires forall i :: 0 <= i < |seps| ==> DigitsOnly(seps[i]) == ""
    ensures DigitsOnly(Spread(digits, seps)) == digits
  {
    if digits == "" {
    } else {
      DigitsOfSpread(digits[1..], seps[1..]);
      DigitsOnlyOfDigits([digits[0]]);
      DigitsOnlyConcat([digits[0]], Spread(digits[1..], seps[1..]));
      DigitsOnlyConcat(seps[0], [digits[0]] + Spread(digits[1..], seps[1..]));
      assert [digits[0]] + digits[1..] == digits;
    }
  }

  lemma {:induction false} SpreadLacks(digits: string, seps: seq<string>, c: char)
    requires AllDigits(digits) && |seps| == |digits| + 1 && !IsDigit(c)
    requires forall i :: 0 <= i < |seps| ==> c !in seps[i]
    ensures c !in Spread(digits, seps)
  {
    if digits == "" {
    } else {
      SpreadLacks(digits[1..], seps[1..], c);
    }
  }

  lemma TrimKeepsOut(line: string, c: char)
    requires c !in line
    ensures c !in Trim(line)
  {
    var before, after := TrimSplits(line);
    assert forall i :: 0 <= i < |Trim(line)| ==> Trim(line)[i] == line[|before| + i];
  }

  lemma ParsedLine(line: string)
    requires '\n' !in line
    ensures Parsed(line) == if Normalize(line).Some? then [Normalize(line).value] else []
  {
    SplitOfLine(line);
    assert [line][..0] == [];
    assert Entries([line]) == if Normalize(line).Some? then [Normalize(line).value] else [];
    DistinctOfNoDup(Entries([line]));
  }

  /**
    A phone number, however it is spaced: its digits in their order, with any text before, between
    and after them that holds no digit, no '@' and no line break, parse to exactly the chat id.
   */
  lemma PhoneNumberParses(digits: string, seps: seq<string>)
    requires DecimalInteger(digits) && |seps| == |digits| + 1
    requires forall i, k :: 0 <= i < |seps| && 0 <= k < |seps[i]| ==>
                              !('0' <= seps[i][k] <= '9') && seps[i][k] != '@' && seps[i][k] != '\n'
    ensures Parsed(Spread(digits, seps)) == [digits + "@c.us"]
  {
    var line := Spread(digits, seps);
    DigitsOfSpread(digits, seps);
    SpreadLacks(digits, seps, '@');
    SpreadLacks(digits, seps, '\n');
    DigitsOnlyOfTrim(line);
    TrimKeepsOut(line, '@');
    ParsedLine(line);
  }

  /** A full chat id passes through untouched, without its padding. */
  lemma ChatIdParses(before: string, id: string, after: string)
    requires AllSpace(before) && AllSpace(after) && Trimmed(id) && '@' in id
    requires '\n' !in before && '\n' !in id && '\n' !in after
    ensures Parsed(before + id + after) == [id]
  {
    TrimOfPadded(before, id, after);
    ParsedLine(before + id + after);
  }

  /** A line with neither '@' nor a digit is dropped. */
  lemma OtherLinesAreDropped(line: string)
    requires forall i :: 0 <= i < |line| ==> !('0' <= line[i] <= '9') && line[i] != '@' && line[i] != '\n'
    ensures Parsed(line) == []
  {
    DigitsOnlyOfTrim(line);
    TrimKeepsOut(line, '@');
    ParsedLine(line);
  }
}
