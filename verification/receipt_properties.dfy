/** What the receipt parser guarantees about its output, proved of the specification
    function `Ingredients` that `ParseIngredientsFromText` is shown to compute. */
module ReceiptProperties {
  import opened PyText
  import opened ReceiptScanner

  /** Flat-mapping two blocks is flat-mapping each and concatenating. */
  lemma {:induction false} FlatMapAppend<A, B>(a: seq<A>, b: seq<A>, f: A -> seq<B>)
    ensures FlatMap(a + b, f) == FlatMap(a, f) + FlatMap(b, f)
    decreases |b|
  {
    if b == [] {
      assert a + b == a;
    } else {
      var last := |b| - 1;
      assert (a + b)[..|a + b| - 1] == a + b[..last];
      assert (a + b)[|a + b| - 1] == b[last];
      FlatMapAppend(a, b[..last], f);
    }
  }

  /** The table is built line by line: the rows of two blocks of lines are the rows of the
      first block followed by the rows of the second. */
  lemma IngredientsAppend(a: seq<string>, b: seq<string>)
    ensures Ingredients(a + b) == Ingredients(a) + Ingredients(b)
  {
    FlatMapAppend(a, b, Row);
  }

  /** Each line contributes at most one row, in its own place: the rows before it come from
      the lines before it and the rows after it from the lines after it. */
  lemma RowsInLineOrder(lines: seq<string>, i: int)
    requires 0 <= i < |lines|
    ensures Ingredients(lines) == Ingredients(lines[..i]) + Row(lines[i]) + Ingredients(lines[i + 1..])
    ensures |Row(lines[i])| <= 1
  {
    assert lines == lines[..i] + [lines[i]] + lines[i + 1..];
    FlatMapAppend(lines[..i] + [lines[i]], lines[i + 1..], Row);
    FlatMapAppend(lines[..i], [lines[i]], Row);
    assert [lines[i]][..0] == [];
  }

  /** Every row has the default quantity and a clean name of at least two characters, and
      there are never more rows than lines. */
  lemma {:induction false} RowsAreClean(lines: seq<string>)
    ensures |Ingredients(lines)| <= |lines|
    ensures forall r :: r in Ingredients(lines) ==> IsCleanRecord(r)
  {
    if lines != [] {
      RowsAreClean(lines[..|lines| - 1]);
    }
  }

  /** A skipped line leaves the table exactly as if it were not there. */
  lemma SkippedLineVanishes(before: seq<string>, raw: string, after: seq<string>)
    requires LineName(raw) == None
    ensures Ingredients(before + [raw] + after) == Ingredients(before + after)
  {
    FlatMapSkip(before, raw, after, Row);
  }

  /** An element that `f` maps to nothing leaves a flat map as if it were not there. */
  lemma FlatMapSkip<A, B>(before: seq<A>, x: A, after: seq<A>, f: A -> seq<B>)
    requires f(x) == []
    ensures FlatMap(before + [x] + after, f) == FlatMap(before + after, f)
  {
    FlatMapAppend(before + [x], after, f);
    FlatMapAppend(before, [x], f);
    assert [x][..0] == [];
    FlatMapAppend(before, after, f);
  }

  /** Lines made only of whitespace yield no rows. */
  lemma {:induction false} BlankLinesYieldNothing(lines: seq<string>)
    requires forall i :: 0 <= i < |lines| ==> AllSpace(lines[i])
    ensures Ingredients(lines) == []
  {
    if lines != [] {
      var last := lines[|lines| - 1];
      StripFacts(last);
      BlankLinesYieldNothing(lines[..|lines| - 1]);
    }
  }

  /** Empty OCR text, or text made only of blank and whitespace lines, gives the empty
      table and not an error. */
  lemma BlankTextYieldsNothing(fullText: string)
    requires AllSpace(fullText)
    ensures Ingredients(Split(fullText, '\n')) == []
  {
    var lines := Split(fullText, '\n');
    forall i | 0 <= i < |lines|
      ensures AllSpace(lines[i])
    {
      forall m | 0 <= m < |lines[i]|
        ensures IsSpace(lines[i][m])
      {
        SplitPieceChars(fullText, '\n', i, lines[i][m]);
      }
    }
    BlankLinesYieldNothing(lines);
  }

  lemma EmptyTextYieldsNothing()
    ensures Ingredients(Split("", '\n')) == []
  {
    BlankTextYieldsNothing("");
  }

  /** No keyword starts or ends with whitespace. */
  lemma KeywordsAreStripped()
    ensures forall i :: 0 <= i < |IgnoreKeywords| ==> |IgnoreKeywords[i]| > 0 && IsStripped(IgnoreKeywords[i])
  {
  }

  /** A keyword in a line is still in the stripped line, since no keyword begins or ends
      with whitespace. */
  lemma KeywordSurvivesStrip(raw: string, k: string)
    requires k in IgnoreKeywords && Contains(raw, k)
    ensures HasIgnoreKeyword(Strip(raw))
  {
    var idx :| 0 <= idx < |IgnoreKeywords| && IgnoreKeywords[idx] == k;
    KeywordsAreStripped();
    ContainsStripped(raw, k);
  }

  /** A line that contains one of the ignore keywords anywhere yields no row, whatever else
      it holds. */
  lemma KeywordLineDropped(raw: string, k: string)
    requires k in IgnoreKeywords && Contains(raw, k)
    ensures LineName(raw) == None
  {
    KeywordSurvivesStrip(raw, k);
  }

  /** The boilerplate example: a total line is dropped. */
  lemma TotalLineDropped()
    ensures LineName("合計 ¥1,280") == None
  {
    assert OccursAt("合計 ¥1,280", "合計", 0);
    KeywordLineDropped("合計 ¥1,280", "合計");
  }

  /** With `¥`, `,` and `.` deleted, a line made only of `isdigit` characters and those
      three, holding at least one digit, is a non-empty digit string. */
  lemma NumericLineIsNumeric(line: string)
    requires forall c :: c in line ==> IsDigitChar(c) || c == '¥' || c == ',' || c == '.'
    requires exists c :: c in line && IsDigitChar(c)
    ensures IsNumericLine(line)
  {
    var bare := RemoveAll(RemoveAll(RemoveAll(line, '¥'), ','), '.');
    var d :| d in line && IsDigitChar(d);
    SymbolsAreNotDigits();
    assert d in bare;
    assert forall m :: 0 <= m < |bare| ==> IsDigitChar(bare[m]) by {
      forall m | 0 <= m < |bare| ensures IsDigitChar(bare[m]) {
        assert bare[m] in bare;
      }
    }
    DigitsAreStripped(bare);
  }

  /** A line made only of `isdigit` characters, `¥`, `,` and `.`, with at least one digit,
      is a bare price or count and yields no row. */
  lemma NumericLineDropped(raw: string)
    requires forall c :: c in Strip(raw) ==> IsDigitChar(c) || c == '¥' || c == ',' || c == '.'
    requires exists c :: c in Strip(raw) && IsDigitChar(c)
    ensures LineName(raw) == None
  {
    NumericLineIsNumeric(Strip(raw));
  }

  /** A bare price, `¥` followed by ASCII digits, commas and periods with at least one digit,
      yields no row. */
  lemma BarePriceDropped(price: string)
    requires forall c :: c in price ==> '0' <= c <= '9' || c == ',' || c == '.'
    requires exists c :: c in price && '0' <= c <= '9'
    ensures LineName("¥" + price) == None
  {
    var raw := "¥" + price;
    assert raw[0] == '¥' && raw[|raw| - 1] == price[|price| - 1];
    assert price[|price| - 1] in price;
    StripStripped(raw);
    var d :| d in price && '0' <= d <= '9';
    assert d in raw && IsDigitChar(d);
    NumericLineDropped(raw);
  }

  /** Cleaning a stripped name that does not end in an amount character and holds no `*`
      or `※` changes nothing. */
  lemma CleanNameKeeps(line: string)
    requires IsStripped(line) && '*' !in line && '※' !in line
    requires line == [] || !IsAmountChar(line[|line| - 1])
    ensures CleanName(line) == line
  {
    StripFacts(line);
    assert StripPrice(line) == line;
  }

  /** A stripped line of two or more characters that does not end in a digit, comma or
      period, holds no `*`, `※` or keyword and is not a bare number is kept as it is. */
  lemma CleanLineKept(raw: string)
    requires |Strip(raw)| > 1 && !IsAmountChar(Strip(raw)[|Strip(raw)| - 1])
    requires '*' !in Strip(raw) && '※' !in Strip(raw)
    requires !HasIgnoreKeyword(Strip(raw)) && !IsNumericLine(Strip(raw))
    ensures LineName(raw) == Some(Strip(raw))
  {
    CleanNameKeeps(Strip(raw));
  }

  /** Running the parser again on a name it produced never shortens that name when the name
      does not end in a digit, comma or period: the name comes back whole, or (when deleting
      `*` or `※` joined a keyword together, or left only digits) it is dropped. */
  lemma RerunNeverTruncates(raw: string)
    requires LineName(raw).Some?
    requires !IsAmountChar(LineName(raw).value[|LineName(raw).value| - 1])
    ensures LineName(LineName(raw).value) in {None, LineName(raw)}
  {
    var name := LineName(raw).value;
    StripFacts(name);
    if !HasIgnoreKeyword(name) && !IsNumericLine(name) {
      CleanLineKept(name);
    }
  }

  /** A line ending in one amount character after a character that is no amount
      character, price mark or separator loses exactly that last character to the price cut. */
  lemma TrailingAmountCut(x: string, d: char)
    requires |x| > 0 && IsAmountChar(d)
    requires !IsAmountChar(x[|x| - 1]) && !IsPriceMark(x[|x| - 1]) && !IsSeparator(x[|x| - 1])
    ensures StripPrice(x + [d]) == x
  {
    var line := x + [d];
    var n := |x|;
    assert line[n] == d && line[n - 1] == x[n - 1];
    RunStartAt(line, n + 1, IsAmountChar, n);
    RunStartAt(line, n, IsSeparator, n);
    assert line[..n] == x;
  }

  /** A clean name ending in one amount character after a character that is no amount
      character, price mark or separator, and that passes both filters, loses that last
      character and yields the rest. */
  lemma TrailingAmountDropped(x: string, d: char)
    requires |x| > 1 && IsStripped(x) && '*' !in x && '※' !in x && IsAmountChar(d)
    requires !IsAmountChar(x[|x| - 1]) && !IsPriceMark(x[|x| - 1]) && !IsSeparator(x[|x| - 1])
    requires IsStripped(x + [d]) && !HasIgnoreKeyword(x + [d]) && !IsNumericLine(x + [d])
    ensures LineName(x + [d]) == Some(x)
  {
    StripFacts(x + [d]);
    TrailingAmountCut(x, d);
    StripFacts(x);
    assert RemoveAll(x, '*') == x;
    assert RemoveAll(x, '※') == x;
  }

  /** A second pass can shorten a name. An item ending in one ASCII digit after a letter,
      "abc1 ¥12" say, yields the item "abc1" with its digit, and "abc1" itself then yields
      "abc": the price pattern takes the digit for an amount. */
  lemma RerunCanShorten(x: string, d: char, price: string)
    requires |x| > 1 && IsStripped(x) && '*' !in x && '※' !in x && '0' <= d <= '9'
    requires !IsAmountChar(x[|x| - 1]) && !IsPriceMark(x[|x| - 1])
    requires !HasIgnoreKeyword(x + [d])
    requires exists c :: c in x && !IsDigitChar(c) && !IsSpace(c) && c != '¥' && c != ',' && c != '.'
    requires |price| > 0 && forall c :: c in price ==> '0' <= c <= '9' || c == ',' || c == '.'
    ensures LineName(x + [d] + " ¥" + price) == Some(x + [d])
    ensures LineName(x + [d]) == Some(x)
  {
    var item := x + [d];
    assert IsStripped(item) by {
      StripFacts(x);
      assert item[0] == x[0] && item[|item| - 1] == d;
    }
    var c :| c in x && !IsDigitChar(c) && !IsSpace(c) && c != '¥' && c != ',' && c != '.';
    assert c in item;
    PricedItemKept(item, price);
    assert !IsNumericLine(item) by {
      var bare := RemoveAll(RemoveAll(RemoveAll(item, '¥'), ','), '.');
      assert c in bare;
      StripKeepsChars(bare);
    }
    TrailingAmountDropped(x, d);
  }

  /** The price at the end of an item line, a space, `¥` and an amount, is cut off exactly. */
  lemma PricedLineCut(item: string, price: string)
    requires |item| > 0 && !IsSeparator(item[|item| - 1])
    requires |price| > 0 && forall c :: c in price ==> IsAmountChar(c)
    ensures StripPrice(item + " ¥" + price) == item
  {
    var line := item + " ¥" + price;
    var n := |item|;
    assert line[n] == ' ' && line[n + 1] == '¥' && line[n - 1] == item[n - 1];
    forall m | n + 2 <= m < |line|
      ensures IsAmountChar(line[m])
    {
      assert line[m] == price[m - n - 2];
    }
    assert !IsAmountChar('¥');
    RunStartAt(line, |line|, IsAmountChar, n + 2);
    RunStartAt(line, n + 1, IsSeparator, n);
    assert line[..n] == item;
  }

  /** A character that can follow an item on a priced line: the space, the `¥`, an ASCII
      digit, a comma or a period. */
  predicate IsPriceTailChar(c: char) {
    c == ' ' || c == '¥' || c == ',' || c == '.' || '0' <= c <= '9'
  }

  /** Every keyword ends in a character that cannot follow an item on a priced line, except
      "No.", whose last but one character cannot. */
  lemma KeywordEndings()
    ensures forall i :: 0 <= i < |IgnoreKeywords| ==>
      var k := IgnoreKeywords[i];
      |k| > 0 &&
      (!IsPriceTailChar(k[|k| - 1]) || (|k| > 1 && k[|k| - 1] == '.' && !IsPriceTailChar(k[|k| - 2])))
  {
  }

  /** A price of ASCII digits, commas and periods after an item brings in no keyword. */
  lemma PricedLineNoKeyword(item: string, price: string)
    requires !HasIgnoreKeyword(item)
    requires forall c :: c in price ==> '0' <= c <= '9' || c == ',' || c == '.'
    ensures !HasIgnoreKeyword(item + " ¥" + price)
  {
    var tail := " ¥" + price;
    assert item + " ¥" + price == item + tail;
    forall j | 0 <= j < |tail|
      ensures IsPriceTailChar(tail[j])
    {
      if j >= 2 {
        assert tail[j] == price[j - 2] && price[j - 2] in price;
      }
    }
    KeywordEndings();
    forall i | 0 <= i < |IgnoreKeywords|
      ensures !Contains(item + tail, IgnoreKeywords[i])
    {
      var k := IgnoreKeywords[i];
      if Contains(item + tail, k) {
        ContainedInPrefix(item, tail, k);
      }
    }
  }

  /** An item holding a character that is no digit, whitespace, `¥`, comma or period keeps
      the line from being a bare number, whatever price follows. */
  lemma PricedLineNotNumeric(item: string, price: string)
    requires exists c :: c in item && !IsDigitChar(c) && !IsSpace(c) && c != '¥' && c != ',' && c != '.'
    ensures !IsNumericLine(item + " ¥" + price)
  {
    var c :| c in item && !IsDigitChar(c) && !IsSpace(c) && c != '¥' && c != ',' && c != '.';
    var line := item + " ¥" + price;
    assert c in line;
    var bare := RemoveAll(RemoveAll(RemoveAll(line, '¥'), ','), '.');
    assert c in bare;
    StripKeepsChars(bare);
    assert c in Strip(bare);
  }

  /** An item line with its price, "キャベツ ¥198" say, yields the item name alone: the price
      is cut, and a clean item name survives every filter. */
  lemma PricedItemKept(item: string, price: string)
    requires |item| > 1 && IsStripped(item) && '*' !in item && '※' !in item
    requires item[|item| - 1] != ',' && !HasIgnoreKeyword(item)
    requires exists c :: c in item && !IsDigitChar(c) && !IsSpace(c) && c != '¥' && c != ',' && c != '.'
    requires |price| > 0 && forall c :: c in price ==> '0' <= c <= '9' || c == ',' || c == '.'
    ensures LineName(item + " ¥" + price) == Some(item)
  {
    PricedLineStripped(item, price);
    PricedLineNoKeyword(item, price);
    PricedLineNotNumeric(item, price);
    PricedLineCut(item, price);
    StripFacts(item);
    assert RemoveAll(item, '*') == item;
    assert RemoveAll(item, '※') == item;
  }

  /** An item line with an ASCII price has no whitespace to strip. */
  lemma PricedLineStripped(item: string, price: string)
    requires |item| > 0 && IsStripped(item)
    requires |price| > 0 && forall c :: c in price ==> '0' <= c <= '9' || c == ',' || c == '.'
    ensures Strip(item + " ¥" + price) == item + " ¥" + price
  {
    var line := item + " ¥" + price;
    assert line[0] == item[0] && line[|line| - 1] == price[|price| - 1];
    assert price[|price| - 1] in price;
    StripStripped(line);
  }

  /** The example of the source's comment: "キャベツ ¥198" yields "キャベツ". */
  lemma CabbageExample()
    ensures LineName("キャベツ ¥198") == Some("キャベツ")
  {
    var item := "キャベツ";
    CjkIsNotDigitOrSpace(item[0]);
    CjkIsNotDigitOrSpace(item[3]);
    assert !HasIgnoreKeyword(item) by {
      forall i | 0 <= i < |IgnoreKeywords|
        ensures !Contains(item, IgnoreKeywords[i])
      {
        NotContainedWithoutFirst(item, IgnoreKeywords[i]);
      }
    }
    assert "キャベツ ¥198" == item + " ¥" + "198";
    PricedItemKept(item, "198");
  }
}
