# Receipt text parser, modelled in Dafny

The receipt scanner page of the app sends a photographed receipt to an OCR
service and gets back the recognised text as one string. The function
`parse_ingredients_from_text` (pages/receipt_scanner.py) turns that text into a
table of ingredient rows `{name, quantity}`, which the user then edits by hand.
It works as follows:

1. It splits the text on `'\n'` and strips each line.
2. It skips a line that is empty or contains one of fourteen receipt keywords
   (合計, 小計, 税, …, No., …, 様).
3. It skips a line that becomes a non-empty `isdigit()` string once `¥`, `,` and
   `.` are deleted and it is stripped (a bare price or count).
4. It cuts a trailing price matching `[\s,]*[¥@]?[\d,.]+$` and strips again.
5. It deletes every `*` and `※` and strips again.
6. It keeps the name if it has more than one character, paired with the quantity `"1"`.

This project models that function and proves what it guarantees.

- `PyText` models the Python `str` operations the function uses:
  - `strip`, `split('\n')`, `replace(c, '')` and `in`;
  - the character classes `isspace` (which is also regex `\s`), `isdecimal`
    (regex `\d`) and `isdigit`, as range tables taken from CPython 3.12
    (Unicode 15.0). ASCII is decided by direct comparison.
- `ReceiptScanner` holds the parser itself:
  - the keyword list and the digit-only test;
  - the trailing-price cut, with a proof that it is exactly the text `re.sub`
    removes;
  - `LineName`, the specification of what one line yields;
  - `ParseIngredientsFromText`, the loop, proved to compute `Ingredients`
    (the rows of every line, in line order). `FilterLine` is one pass of the
    loop body, with its `continue`s as early returns.
- `ReceiptProperties` proves properties of `Ingredients` and `LineName`:
  - blank text gives no rows;
  - every row is clean, and there are no more rows than lines;
  - rows keep line order, and skipped lines vanish;
  - keyword lines, bare numbers and bare prices are dropped;
  - an item line with a price yields the item;
  - a clean line is kept as it is;
  - re-parsing never shortens a name that does not end in a digit, comma or
    period, and can shorten one that does.

The comment above the length test (line 99) says a name of one character or
more is kept. The code keeps only names of two or more characters, and so does
the model.

Re-parsing a produced name is not always the identity, for two reasons:

- A second pass can drop a name. Deleting `*` can join a keyword together, so
  "合*計" yields "合計", which a second pass drops.
- A name can keep a trailing digit. The space and `¥` of "abc1 ¥12" stop the price
  cut, so that line yields "abc1". A second pass then takes the `1` for a price
  and yields "abc". `RerunCanShorten` proves this for every such name.

`RerunNeverTruncates` states what does hold: a name that does not end in a digit,
comma or period never comes back shortened.

## Model

| member | source | states |
|---|---|---|
| ReceiptScanner.ParseIngredientsFromText | pages/receipt_scanner.py:72-106 | the rows returned are `Ingredients` of the `'\n'`-split lines; there are at most as many rows as lines, that is, newlines + 1; every row is clean |
| ReceiptScanner.FilterLine | pages/receipt_scanner.py:83-102 | one pass of the loop body returns exactly the name `LineName` specifies, or None for a line the loop skips |
| ReceiptScanner.Row | pages/receipt_scanner.py:99-101 | defines the rows one line adds: none when `LineName` gives None, otherwise one row with the name and quantity "1" |
| ReceiptScanner.FlatMap | pages/receipt_scanner.py:82-102 | defines the concatenation of each element's output, in element order |
| ReceiptScanner.Ingredients | pages/receipt_scanner.py:82-102 | defines the table for a sequence of lines: the rows of each line, in line order |
| ReceiptScanner.IngredientsStep | pages/receipt_scanner.py:82-102 | the rows of the first i + 1 lines are the rows of the first i lines followed by the row of line i, which is what one pass of the loop appends |
| ReceiptScanner.LineName | pages/receipt_scanner.py:83-102 | a name a line yields has quantity "1", two or more characters, no `*` or `※`, and no surrounding whitespace |
| ReceiptScanner.CleanName | pages/receipt_scanner.py:95-97 | after the price cut and the deletions, the name holds no `*` or `※` and is stripped |
| ReceiptScanner.HasIgnoreKeyword | pages/receipt_scanner.py:86 | defines the keyword test: some keyword of the list occurs as a substring of the line |
| ReceiptScanner.IsNumericLine | pages/receipt_scanner.py:90 | defines the digit-only test: with every `¥`, `,` and `.` deleted and the rest stripped, the line is a non-empty `isdigit` string |
| ReceiptScanner.SymbolsAreNotDigits | pages/receipt_scanner.py:90 | `¥`, `,`, `.` and `@` are not `isdigit` characters |
| ReceiptScanner.PriceSuffixAt | pages/receipt_scanner.py:95 | defines one way a string matches `[\s,]*[¥@]?[\d,.]+`: separators up to j, an optional `¥` or `@` from j to k, and a non-empty amount from k to the end |
| ReceiptScanner.IsPriceSuffix | pages/receipt_scanner.py:95 | defines a whole-string match of `[\s,]*[¥@]?[\d,.]+`: some split as in `PriceSuffixAt` exists |
| ReceiptScanner.RunStart | pages/receipt_scanner.py:95 | the start of the maximal run of class characters ending at a given index: everything in the run is in the class and the character before it is not |
| ReceiptScanner.RunStartAt | pages/receipt_scanner.py:95 | a run that cannot be extended to the left starts where `RunStart` says |
| ReceiptScanner.PriceCut | pages/receipt_scanner.py:95 | the cut lies within the line, and a line is cut at all only when its last character is a digit, comma or period |
| ReceiptScanner.PriceCutIsLongestMatch | pages/receipt_scanner.py:95 | the suffix from the cut matches `[\s,]*[¥@]?[\d,.]+`, and no longer suffix does: this is exactly what the `$`-anchored `re.sub` removes |
| ReceiptScanner.NoEarlierMatch | pages/receipt_scanner.py:95 | a match of the price pattern starting at index i puts the cut at or before i |
| ReceiptScanner.StripPrice | pages/receipt_scanner.py:95 | the result is a prefix of the line; a line not ending in a digit, comma or period is unchanged |
| ReceiptProperties.FlatMapAppend | pages/receipt_scanner.py:82-102 | the output for two blocks of elements is the output for the first followed by that for the second |
| ReceiptProperties.IngredientsAppend | pages/receipt_scanner.py:82-102 | the rows of two blocks of lines are the rows of the first block followed by those of the second |
| ReceiptProperties.RowsInLineOrder | pages/receipt_scanner.py:82-102 | each line contributes at most one row, between the rows of the lines before it and the rows of the lines after it |
| ReceiptProperties.RowsAreClean | pages/receipt_scanner.py:100-102 | there are no more rows than lines, and every row has quantity "1" and a stripped name of two or more characters without `*` or `※` |
| ReceiptProperties.SkippedLineVanishes | pages/receipt_scanner.py:86-91 | a skipped line leaves the rows exactly as if it were absent |
| ReceiptProperties.FlatMapSkip | pages/receipt_scanner.py:86-91 | an element that contributes nothing can be removed without changing the output |
| ReceiptProperties.BlankLinesYieldNothing | pages/receipt_scanner.py:83-87 | lines made only of whitespace yield no rows |
| ReceiptProperties.BlankTextYieldsNothing | pages/receipt_scanner.py:81-87 | text made only of whitespace, newlines included, yields no rows |
| ReceiptProperties.EmptyTextYieldsNothing | pages/receipt_scanner.py:104-105 | the empty text yields the empty table |
| ReceiptProperties.KeywordsAreStripped | pages/receipt_scanner.py:79 | no keyword is empty or starts or ends with whitespace |
| ReceiptProperties.KeywordSurvivesStrip | pages/receipt_scanner.py:83-86 | a keyword anywhere in a raw line is still in the stripped line |
| ReceiptProperties.KeywordLineDropped | pages/receipt_scanner.py:86-87 | a line containing any keyword yields no row |
| ReceiptProperties.TotalLineDropped | pages/receipt_scanner.py:86-87 | "合計 ¥1,280" yields no row |
| ReceiptProperties.NumericLineIsNumeric | pages/receipt_scanner.py:90 | a line of digits, `¥`, `,` and `.` with at least one digit passes the digit-only test |
| ReceiptProperties.NumericLineDropped | pages/receipt_scanner.py:90-91 | such a line yields no row |
| ReceiptProperties.BarePriceDropped | pages/receipt_scanner.py:90-91 | `¥` followed by an amount with at least one digit yields no row |
| ReceiptProperties.CleanNameKeeps | pages/receipt_scanner.py:95-97 | cleaning a stripped name without `*` or `※` that does not end in a digit, comma or period changes nothing |
| ReceiptProperties.CleanLineKept | pages/receipt_scanner.py:83-102 | a clean line of two or more characters that passes both filters is kept exactly as stripped |
| ReceiptProperties.TrailingAmountCut | pages/receipt_scanner.py:95 | a line ending in one digit, comma or period after a character outside the price pattern loses exactly that last character |
| ReceiptProperties.TrailingAmountDropped | pages/receipt_scanner.py:83-102 | a clean line of that shape that passes both filters yields the line without its last character |
| ReceiptProperties.RerunCanShorten | pages/receipt_scanner.py:83-102 | for an item ending in one digit after a character outside the price pattern, the priced line yields the item whole, and a second pass on that item yields it without the digit |
| ReceiptProperties.RerunNeverTruncates | pages/receipt_scanner.py:83-102 | parsing again a produced name that does not end in a digit, comma or period gives the same name or drops it, and never shortens it |
| ReceiptProperties.IsPriceTailChar | pages/receipt_scanner.py:95 | defines the characters that can follow an item on a priced line: space, `¥`, ASCII digit, comma and period |
| ReceiptProperties.PricedLineStripped | pages/receipt_scanner.py:83 | an item line with a price of ASCII digits, commas and periods has nothing to strip |
| ReceiptProperties.PricedLineCut | pages/receipt_scanner.py:93-95 | "item ¥amount" is cut back to exactly "item" |
| ReceiptProperties.KeywordEndings | pages/receipt_scanner.py:79 | every keyword ends in a character other than a space, `¥`, comma, period or ASCII digit, except "No.", whose last but one character is none of these |
| ReceiptProperties.PricedLineNoKeyword | pages/receipt_scanner.py:86 | appending " ¥" and a price of ASCII digits, commas and periods to an item without a keyword brings in no keyword, "No." included |
| ReceiptProperties.PricedLineNotNumeric | pages/receipt_scanner.py:90 | an item holding a character that is not a digit, whitespace, `¥`, `,` or `.` keeps its priced line from being a bare number |
| ReceiptProperties.PricedItemKept | pages/receipt_scanner.py:93-102 | a clean item name that does not end in a comma, followed by " ¥" and a price, yields exactly that item name; an item ending in a digit or period, such as "コーラ1.5", is kept whole |
| ReceiptProperties.CabbageExample | pages/receipt_scanner.py:93-95 | "キャベツ ¥198" yields "キャベツ" |
| PyText.Strip | pages/receipt_scanner.py:83 | `strip()` never lengthens a string, and its result neither starts nor ends with whitespace |
| PyText.StripFacts | pages/receipt_scanner.py:83 | strip removes only whitespace, and only from the two ends; it keeps every non-whitespace character; it gives "" exactly for blank strings; it leaves a stripped string alone |
| PyText.SkipSpace | pages/receipt_scanner.py:83 | the first non-whitespace index at or after a position, with only whitespace skipped |
| PyText.SkipSpaceBack | pages/receipt_scanner.py:83 | the end of a range once its trailing whitespace is dropped, with only whitespace skipped |
| PyText.NonSpaceKept | pages/receipt_scanner.py:83 | a non-whitespace character lies inside the part strip keeps |
| PyText.IsSpace | pages/receipt_scanner.py:83 | defines `isspace` (and regex `\s`) on one character: tab to carriage return, the four information separators and space in ASCII, the whitespace table beyond it |
| PyText.IsDecimal | pages/receipt_scanner.py:95 | defines regex `\d` on one character: `0` to `9` in ASCII, the decimal-digit table beyond it |
| PyText.IsDigitChar | pages/receipt_scanner.py:90 | defines `isdigit` on one character: a decimal digit or a character of the other-digit table |
| PyText.IsDigitStr | pages/receipt_scanner.py:90 | defines `isdigit` on a string: non-empty and made only of digit characters |
| PyText.NonAsciiSpace | pages/receipt_scanner.py:83 | the whitespace characters beyond ASCII are U+0085, U+00A0, U+1680, characters in U+2000-U+205F and U+3000 |
| PyText.DecimalIsNotSpace | pages/receipt_scanner.py:95 | no `\d` character is `\s` |
| PyText.DigitIsNotSpace | pages/receipt_scanner.py:90 | no `isdigit` character is whitespace |
| PyText.DigitsAreStripped | pages/receipt_scanner.py:90 | an `isdigit` string is its own strip |
| PyText.CjkIsNotDigitOrSpace | pages/receipt_scanner.py:90 | characters from U+3001 to U+A61F are neither digits nor whitespace |
| PyText.RemoveAll | pages/receipt_scanner.py:97 | the characters of `replace(c, '')` are exactly the argument's other than `c`; without a `c` the argument comes back unchanged |
| PyText.RemoveAllCounts | pages/receipt_scanner.py:97 | `replace(c, '')` keeps every other character as often as the argument has it, and no `c` |
| PyText.RemoveAllSingle | pages/receipt_scanner.py:97 | on one character, `replace(c, '')` gives "" for `c` and the character itself otherwise |
| PyText.RemoveAllAppend | pages/receipt_scanner.py:97 | `replace(c, '')` distributes over concatenation, so with `RemoveAllSingle` it keeps the other characters in their order |
| PyText.Contains | pages/receipt_scanner.py:86 | `k in s` holds exactly when `k` occurs contiguously somewhere in `s` |
| PyText.OccursStripped | pages/receipt_scanner.py:83-86 | an occurrence of a stripped substring survives strip, shifted by the leading whitespace |
| PyText.ContainsStripped | pages/receipt_scanner.py:83-86 | a substring that neither starts nor ends with whitespace is still contained after strip |
| PyText.NotContainedWithoutFirst | pages/receipt_scanner.py:86 | a substring whose first character is missing from `s` is not in `s` |
| PyText.OccursInPrefix | pages/receipt_scanner.py:86 | an occurrence in `s + t` of a substring lies within `s` when its last character is not in `t`, or when its last but one character is not in `t` and its last character is not the first of `t` |
| PyText.ContainedInPrefix | pages/receipt_scanner.py:86 | under the same condition, the substring is in `s + t` only if it is in `s` |
| PyText.ContainsShift | pages/receipt_scanner.py:86 | when `k` does not start `s`, it occurs in `s` exactly when it occurs in `s[1..]` |
| PyText.SliceOfSlice | pages/receipt_scanner.py:83 | a slice of a slice is a slice of the whole |
| PyText.Split | pages/receipt_scanner.py:81 | `split('\n')` returns at least one piece, and no piece holds the separator |
| PyText.JoinSplit | pages/receipt_scanner.py:81 | joining the pieces with the separator gives back the text |
| PyText.SplitJoin | pages/receipt_scanner.py:81 | splitting a join of separator-free pieces gives back the pieces |
| PyText.SplitCount | pages/receipt_scanner.py:81 | there is one more piece than there are separators |
| PyText.SplitPieceChars | pages/receipt_scanner.py:81 | every character of a piece comes from the text |
| PyText.SplitNoSeparator | pages/receipt_scanner.py:81 | a text without the separator splits into itself alone |
| PyText.SplitCons | pages/receipt_scanner.py:81 | splitting `p + sep + t` for a separator-free `p` puts `p` in front of the pieces of `t` |

## Left out

- The OCR call to the vision service, and the rest of pages/receipt_scanner.py: the
  Streamlit page, the image upload and saving the table. These are I/O and UI.
  Every other file of the repository is outside the model.
- The table is a `seq<Ingredient>`. `pd.DataFrame()` for no rows is the empty
  sequence, so the model does not tell a frame without columns from a frame with
  columns and no rows.
- A row is an `Ingredient` datatype rather than a dictionary with the keys
  "name" and "quantity".
- Python strings can hold lone surrogates (U+D800 to U+DFFF). Dafny characters
  cannot, so such text is not representable.
- The character tables are those of Unicode 15.0 (CPython 3.12). Another Python
  version can class a few characters differently.
- The price pattern's `$` can also match just before a final `'\n'`. This cannot
  arise: after the split and the strip a line holds no newline.
- ReceiptProperties.PricedItemKept: proved for prices written with ASCII digits,
  commas and periods. The proof does not cover the other `\d` digits.
- ReceiptProperties.BarePriceDropped: proved for amounts written with ASCII
  digits. NumericLineDropped covers every `isdigit` character.
- ReceiptProperties.RerunNeverTruncates: holds only for names that do not end in
  a digit, comma or period, because a second pass cuts a trailing amount from
  such a name (RerunCanShorten). It states that a second pass keeps or drops a
  name, not that it is the identity. Deleting `*` or `※` in the first pass can
  join a keyword together, or leave nothing but digits, `¥`, commas and periods,
  and the second pass then drops the name.
