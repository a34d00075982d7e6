/** The receipt-text parser of the receipt scanner page: OCR text in, an ordered
    list of `{name, quantity}` records out (pages/receipt_scanner.py, parse_ingredients_from_text). */
module ReceiptScanner {
  import opened PyText

  datatype Option<T> = None | Some(value: T)

  /** One row of the parser's table. An empty table is the empty sequence of rows. */
  datatype Ingredient = Ingredient(name: string, quantity: string)

  /** The quantity every row gets; the user corrects it by hand afterwards. */
  const DefaultQuantity: string := "1"

  /** Receipt boilerplate: a line containing any of these is not an item. */
  const IgnoreKeywords: seq<string> :=
    ["合計", "小計", "税", "お預り", "お釣り", "クレジット", "ポイント", "レジ", "No.", "担当", "領収書", "店", "電話", "様"]

  /** `any(keyword in line for keyword in ignore_keywords)` */
  predicate HasIgnoreKeyword(line: string) {
    exists i :: 0 <= i < |IgnoreKeywords| && Contains(line, IgnoreKeywords[i])
  }

  /** The digit-only test: with every `¥`, `,` and `.` deleted and the rest stripped,
      the line is a non-empty run of `isdigit` characters (a bare price or count). */
  predicate IsNumericLine(line: string) {
    IsDigitStr(Strip(RemoveAll(RemoveAll(RemoveAll(line, '¥'), ','), '.')))
  }

  /** The symbols the digit-only test deletes, and the price marks, are not digits. */
  lemma SymbolsAreNotDigits()
    ensures !IsDigitChar('¥') && !IsDigitChar(',') && !IsDigitChar('.') && !IsDigitChar('@')
  {
  }

  // The character classes of the trailing-price pattern `[\s,]*[¥@]?[\d,.]+$`.

  /** `[\s,]` */
  predicate IsSeparator(c: char) { IsSpace(c) || c == ',' }

  /** `[¥@]` */
  predicate IsPriceMark(c: char) { c == '¥' || c == '@' }

  /** `[\d,.]` */
  predicate IsAmountChar(c: char) { IsDecimal(c) || c == ',' || c == '.' }

  /** `t` splits as separators `t[..j]`, an optional mark `t[j..k]` and a non-empty amount `t[k..]`. */
  ghost predicate PriceSuffixAt(t: string, j: int, k: int) {
    0 <= j <= k < |t| &&
    (forall m :: 0 <= m < j ==> IsSeparator(t[m])) &&
    (k == j || (k == j + 1 && IsPriceMark(t[j]))) &&
    (forall m :: k <= m < |t| ==> IsAmountChar(t[m]))
  }

  /** `t` as a whole matches `[\s,]*[¥@]?[\d,.]+`. */
  ghost predicate IsPriceSuffix(t: string) {
    exists j, k :: PriceSuffixAt(t, j, k)
  }

  /** The start of the longest run of `p`-characters in `s` that ends at index `end`. */
  function RunStart(s: string, end: nat, p: char -> bool): (i: nat)
    requires end <= |s|
    ensures i <= end
    ensures forall m :: i <= m < end ==> p(s[m])
    ensures i == 0 || !p(s[i - 1])
    decreases end
  {
    if end > 0 && p(s[end - 1]) then RunStart(s, end - 1, p) else end
  }

  /** A run of `p`-characters ending at `end` that cannot be extended to the left starts
      where `RunStart` says. */
  lemma {:induction false} RunStartAt(s: string, end: nat, p: char -> bool, a: nat)
    requires a <= end <= |s|
    requires forall m :: a <= m < end ==> p(s[m])
    requires a == 0 || !p(s[a - 1])
    ensures RunStart(s, end, p) == a
    decreases end
  {
    if end > a {
      RunStartAt(s, end - 1, p, a);
    }
  }

  /** Where `re.sub(r'[\s,]*[¥@]?[\d,.]+$', '', line)` cuts `line`: the amount run at the
      end, then one `¥` or `@` before it if there is one, then the separators before that.
      A line that does not end in an amount character is not cut at all. */
  function PriceCut(line: string): (cut: nat)
    ensures cut <= |line|
    ensures cut < |line| ==> IsAmountChar(line[|line| - 1])
  {
    var amount := RunStart(line, |line|, IsAmountChar);
    if amount == |line| then |line|
    else
      var mark := if amount > 0 && IsPriceMark(line[amount - 1]) then amount - 1 else amount;
      RunStart(line, mark, IsSeparator)
  }

  /** The cut is where `re.sub` cuts: the suffix from the cut matches the pattern, and no
      longer suffix does. When nothing matches, the cut is the end of the line. The pattern
      is anchored by `$` and needs at least one amount character, so the regex engine's
      leftmost match is this longest suffix and there is no second match. */
  lemma PriceCutIsLongestMatch(line: string)
    ensures PriceCut(line) < |line| ==> IsPriceSuffix(line[PriceCut(line)..])
    ensures forall i :: 0 <= i < PriceCut(line) ==> !IsPriceSuffix(line[i..])
  {
    var n := |line|;
    var amount := RunStart(line, n, IsAmountChar);
    var cut := PriceCut(line);
    if amount < n {
      var mark := if amount > 0 && IsPriceMark(line[amount - 1]) then amount - 1 else amount;
      assert PriceSuffixAt(line[cut..], mark - cut, amount - cut);
    }
    forall i | 0 <= i < cut
      ensures !IsPriceSuffix(line[i..])
    {
      if j, k :| PriceSuffixAt(line[i..], j, k) {
        NoEarlierMatch(line, i, j, k);
      }
    }
  }

  /** A match of the pattern from `i` forces the cut to be at or before `i`. */
  lemma NoEarlierMatch(line: string, i: int, j: int, k: int)
    requires 0 <= i <= |line| && PriceSuffixAt(line[i..], j, k)
    ensures PriceCut(line) <= i
  {
    var n := |line|;
    var t := line[i..];
    var amount := RunStart(line, n, IsAmountChar);
    var mark := if amount > 0 && IsPriceMark(line[amount - 1]) then amount - 1 else amount;
    if i < mark {
      // Everything from `i` up to the mark is a separator, so the separator run reaches `i`.
      forall m | i <= m < mark
        ensures IsSeparator(line[m])
      {
        assert line[m] == t[m - i];
      }
      RunStartReaches(line, mark, i);
    }
  }

  /** A separator run that covers `line[i..end]` starts at or before `i`. */
  lemma RunStartReaches(line: string, end: nat, i: nat)
    requires i <= end <= |line|
    requires forall m :: i <= m < end ==> IsSeparator(line[m])
    ensures RunStart(line, end, IsSeparator) <= i
    decreases end
  {
    if end > i {
      RunStartReaches(line, end - 1, i);
    }
  }

  /** `re.sub(r'[\s,]*[¥@]?[\d,.]+$', '', line)`: the line with its trailing price removed.
      The result is a prefix of the line, and a line whose last character is not a digit,
      comma or period is returned unchanged. */
  function StripPrice(line: string): (name: string)
    ensures |name| <= |line| && name == line[..|name|]
    ensures (line == [] || !IsAmountChar(line[|line| - 1])) ==> name == line
  {
    line[..PriceCut(line)]
  }

  /** A record name as the loop keeps it: at least two characters, no `*` or `※`,
      no leading or trailing whitespace, with the default quantity. */
  predicate IsCleanRecord(r: Ingredient) {
    r.quantity == DefaultQuantity && |r.name| > 1 && '*' !in r.name && '※' !in r.name && IsStripped(r.name)
  }

  /** What one OCR line contributes: the item name it yields, or None when the line is
      skipped (blank, boilerplate, a bare number, or a name shorter than two characters). */
  function LineName(raw: string): (name: Option<string>)
    ensures name.Some? ==> IsCleanRecord(Ingredient(name.value, DefaultQuantity))
  {
    var line := Strip(raw);
    if line == [] || HasIgnoreKeyword(line) then None
    else if IsNumericLine(line) then None
    else
      var name := CleanName(line);
      if |name| > 1 then Some(name) else None
  }

  /** A surviving line's name: price stripped, then every `*` and `※` deleted, stripped
      after each step. */
  function CleanName(line: string): (name: string)
    ensures IsStripped(name) && '*' !in name && '※' !in name
  {
    var starless := RemoveAll(Strip(StripPrice(line)), '*');
    var marked := RemoveAll(starless, '※');
    StripFacts(marked);
    Strip(marked)
  }

  /** The rows one line adds: none, or one with the default quantity. */
  function Row(raw: string): seq<Ingredient> {
    match LineName(raw)
    case Some(name) => [Ingredient(name, DefaultQuantity)]
    case None => []
  }

  /** `f(xs[0]) + f(xs[1]) + ...`: each element's output, in element order. */
  function FlatMap<A, B>(xs: seq<A>, f: A -> seq<B>): seq<B> {
    if xs == [] then [] else FlatMap(xs[..|xs| - 1], f) + f(xs[|xs| - 1])
  }

  /** The rows for a sequence of lines: each line's rows, in line order. */
  function Ingredients(lines: seq<string>): seq<Ingredient> {
    FlatMap(lines, Row)
  }

  /** The rows of the first `i + 1` lines are those of the first `i` lines followed by the
      rows of line `i`. */
  lemma IngredientsStep(lines: seq<string>, i: int)
    requires 0 <= i < |lines|
    ensures Ingredients(lines[..i + 1]) == Ingredients(lines[..i]) + Row(lines[i])
  {
    assert lines[..i + 1][..i] == lines[..i];
  }

  /** One pass of the loop of parse_ingredients_from_text: the name the line yields, or None
      when one of the loop's `continue`s or its length test drops the line. */
  method FilterLine(raw: string) returns (name: Option<string>)
    ensures name == LineName(raw)
  {
    var line := Strip(raw);
    if line == [] || HasIgnoreKeyword(line) {
      return None;
    }
    if IsNumericLine(line) {
      return None;
    }
    var cleaned := Strip(StripPrice(line));
    cleaned := Strip(RemoveAll(RemoveAll(cleaned, '*'), '※'));
    assert cleaned == CleanName(line);
    if |cleaned| > 1 {
      return Some(cleaned);
    }
    return None;
  }

  /** parse_ingredients_from_text: split the OCR text on newlines and append one row per
      line that survives the filters. */
  method ParseIngredientsFromText(fullText: string) returns (ingredients: seq<Ingredient>)
    ensures ingredients == Ingredients(Split(fullText, '\n'))
    ensures |ingredients| <= |Split(fullText, '\n')| == multiset(fullText)['\n'] + 1
    ensures forall r :: r in ingredients ==> IsCleanRecord(r)
  {
    ingredients := [];
    var lines := Split(fullText, '\n');
    SplitCount(fullText, '\n');
    for i := 0 to |lines|
      invariant ingredients == Ingredients(lines[..i])
      invariant |ingredients| <= i
      invariant forall r :: r in ingredients ==> IsCleanRecord(r)
    {
      IngredientsStep(lines, i);
      var name := FilterLine(lines[i]);
      if name.Some? {
        ingredients := ingredients + [Ingredient(name.value, DefaultQuantity)];
      }
    }
    assert lines[..|lines|] == lines;
  }
}
