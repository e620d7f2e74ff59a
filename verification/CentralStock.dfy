/** Stock lookup by material number, padded with zeros or not. */
module CentralStock {
  import opened Common
  import opened Text

  datatype StockRow = StockRow(material: string, materialCode: string, stockType: string, quantity: real,
                               isActive: bool, isDeleted: bool)

  function DropZeros(s: string): (r: string)
    ensures |r| <= |s| && (r != "" ==> r[0] != '0') && s == s[..|s| - |r|] + r
  {
    if s != "" && s[0] == '0' then DropZeros(s[1..]) else s
  }

  /** The number without its leading zeros; all zeros are one zero. */
  function Short(raw: string): string {
    if DropZeros(raw) == "" then "0" else DropZeros(raw)
  }

  predicate EndsWith(s: string, tail: string) {
    |tail| <= |s| && s[|s| - |tail|..] == tail
  }

  /** The lookup's filter, on the trimmed number as given and its short form. */
  predicate Matches(row: StockRow, number: string) {
    var raw := Strip(number);
    && row.isActive && !row.isDeleted
    && (row.material == raw || row.materialCode == Short(raw) || row.materialCode == raw
        || EndsWith(row.material, Short(raw)))
  }

  function MatchingRows(table: seq<StockRow>, number: string): seq<StockRow> {
    if table == [] then []
    else (if Matches(table[0], number) then [table[0]] else []) + MatchingRows(table[1..], number)
  }

  function Sum(rows: seq<StockRow>): real {
    if rows == [] then 0.0 else rows[0].quantity + Sum(rows[1..])
  }

  function Unrestricted(rows: seq<StockRow>): seq<StockRow> {
    if rows == [] then []
    else (if rows[0].stockType == "01" then [rows[0]] else []) + Unrestricted(rows[1..])
  }

  function AvailableQuantity(table: seq<StockRow>, number: string): real {
    Sum(Unrestricted(MatchingRows(table, number)))
  }

  function Counted(x: StockRow): real {
    if x.stockType == "01" then x.quantity else 0.0
  }

  lemma FirstCounts(x: StockRow, rest: seq<StockRow>)
    ensures Sum(Unrestricted([x] + rest)) == Sum(Unrestricted(rest)) + Counted(x)
  {
    var u := Unrestricted(rest);
    assert ([x] + rest)[1..] == rest;
    assert ([x] + u)[1..] == u && [] + u == u;
  }

  lemma {:induction false} LastCounts(rows: seq<StockRow>, x: StockRow)
    ensures Sum(Unrestricted(rows + [x])) == Sum(Unrestricted(rows)) + Counted(x)
  {
    hide Sum, Unrestricted, Counted;
    if rows == [] {
      assert rows + [x] == [x] + rows;
      FirstCounts(x, rows);
    } else {
      var first, rest := rows[0], rows[1..];
      LastCounts(rest, x);
      FirstCounts(first, rest);
      FirstCounts(first, rest + [x]);
      assert rows == [first] + rest;
      assert rows + [x] == [first] + (rest + [x]);
    }
  }

  lemma {:induction false} FoundOneByOne(table: seq<StockRow>, row: StockRow, number: string)
    ensures MatchingRows(table + [row], number) == MatchingRows(table, number) + if Matches(row, number) then [row] else []
  {
    hide Matches;
    if table == [] {
      assert table + [row] == [row];
    } else {
      FoundOneByOne(table[1..], row, number);
      assert (table + [row])[1..] == table[1..] + [row];
    }
  }

  lemma NothingInStock(number: string)
    ensures MatchingRows([], number) == [] && AvailableQuantity([], number) == 0.0
  {
  }

  /** Row by row: a row is found on its own merits, in table order, and adds its quantity exactly when it
      is found and unrestricted; nothing is available in an empty table. */
  lemma LookupIsRowwise(table: seq<StockRow>, row: StockRow, number: string)
    ensures MatchingRows([], number) == [] && AvailableQuantity([], number) == 0.0
    ensures MatchingRows(table + [row], number) == MatchingRows(table, number) + if Matches(row, number) then [row] else []
    ensures AvailableQuantity(table + [row], number)
         == AvailableQuantity(table, number) + if Matches(row, number) && row.stockType == "01" then row.quantity else 0.0
  {
    NothingInStock(number);
    hide Matches, MatchingRows, Sum, Unrestricted;
    FoundOneByOne(table, row, number);
    LastCounts(MatchingRows(table, number), row);
    assert MatchingRows(table, number) + [] == MatchingRows(table, number);
  }

  /** What a row has to do with a material, whatever the spelling of its number. */
  predicate Concerns(row: StockRow, short: string) {
    row.isActive && !row.isDeleted && (row.materialCode == short || EndsWith(row.material, short))
  }

  /** A row that only this very spelling finds. */
  predicate OnlyAsSpelled(row: StockRow, raw: string) {
    && row.isActive && !row.isDeleted && !Concerns(row, Short(raw))
    && (row.materialCode == raw || row.material == raw)
  }

  lemma EndsInShort(raw: string)
    requires raw != ""
    ensures EndsWith(raw, Short(raw))
  {
    if DropZeros(raw) == "" {
      AllZeros(raw);
    }
  }

  lemma {:induction false} AllZeros(raw: string)
    requires raw != "" && DropZeros(raw) == ""
    ensures raw[|raw| - 1] == '0'
  {
    if |raw| > 1 {
      AllZeros(raw[1..]);
    }
  }

  /** The filter is the short-number filter, plus rows whose short code is spelled like the number. */
  lemma MatchesByShortNumber(row: StockRow, number: string)
    ensures var raw := Strip(number);
            && (Matches(row, number) <==> Concerns(row, Short(raw)) || OnlyAsSpelled(row, raw))
            && (OnlyAsSpelled(row, raw) && raw != "" ==> row.materialCode == raw && raw != Short(raw))
  {
    var raw := Strip(number);
    if raw != "" {
      EndsInShort(raw);
    }
  }

  predicate SameMaterial(a: string, b: string) {
    Short(Strip(a)) == Short(Strip(b))
  }

  /** Two spellings of a material find the same rows exactly when no row is found by one spelling only. */
  lemma SpellingsAgree(row: StockRow, a: string, b: string)
    requires SameMaterial(a, b)
    ensures (Matches(row, a) <==> Matches(row, b)) <==> (OnlyAsSpelled(row, Strip(a)) <==> OnlyAsSpelled(row, Strip(b)))
  {
    hide Matches, Strip, Short, Concerns;
    MatchesByShortNumber(row, a);
    MatchesByShortNumber(row, b);
  }

  /** A stored short code without leading zeros. */
  predicate IsShortCode(code: string) {
    code == "0" || code == "" || code[0] != '0'
  }

  lemma {:induction false} MoreZeros(zeros: string, raw: string)
    requires forall c :: c in zeros ==> c == '0'
    ensures DropZeros(zeros + raw) == DropZeros(raw)
  {
    if zeros == "" {
      assert zeros + raw == raw;
    } else {
      assert (zeros + raw)[0] == zeros[0] && zeros[0] in zeros;
      assert (zeros + raw)[1..] == zeros[1..] + raw;
      assert forall c :: c in zeros[1..] ==> c in zeros;
      MoreZeros(zeros[1..], raw);
    }
  }

  /** Zeros in front of a material number and spaces around it change neither the rows found nor the
      quantity, when stored short codes have no leading zeros. */
  lemma SpellingDoesNotMatter(table: seq<StockRow>, left: string, zeros: string, number: string, right: string)
    requires number != "" && !IsSpace(number[0]) && !IsSpace(number[|number| - 1])
    requires (forall c :: c in left + right ==> IsSpace(c)) && forall c :: c in zeros ==> c == '0'
    requires forall i :: 0 <= i < |table| ==> IsShortCode(table[i].materialCode)
    ensures MatchingRows(table, left + (zeros + number) + right) == MatchingRows(table, number)
    ensures AvailableQuantity(table, left + (zeros + number) + right) == AvailableQuantity(table, number)
  {
    hide MatchingRows, Strip, IsShortCode;
    var padded := zeros + number;
    PaddedNumber(left, zeros, number, right);
    SameRows(table, left + padded + right, number);
  }

  lemma PaddedNumber(left: string, zeros: string, number: string, right: string)
    requires number != "" && !IsSpace(number[0]) && !IsSpace(number[|number| - 1])
    requires (forall c :: c in left + right ==> IsSpace(c)) && forall c :: c in zeros ==> c == '0'
    ensures Strip(left + (zeros + number) + right) == zeros + number && Strip(number) == number
    ensures Short(zeros + number) == Short(number)
  {
    hide Strip;
    var padded := zeros + number;
    assert padded[0] == (if zeros == "" then number[0] else zeros[0]) && padded[|padded| - 1] == number[|number| - 1];
    assert zeros != "" ==> zeros[0] in zeros;
    StripOfSpaced(left, padded, right);
    StripOfSpaced("", number, "");
    assert "" + number + "" == number;
    MoreZeros(zeros, number);
  }

  lemma EndsWithIs(s: string, tail: string)
    ensures EndsWith(s, tail) <==> exists front :: s == front + tail
  {
    if EndsWith(s, tail) {
      assert s == s[..|s| - |tail|] + tail;
    }
    if exists front :: s == front + tail {
      var front :| s == front + tail;
      assert s[|s| - |tail|..] == tail;
    }
  }

  /** Which rows a number finds, for a number written without leading zeros, with any zeros in front and any
      spaces around: live rows with that short code, or with that spelling as short code or as material,
      or with a material that ends in the number. */
  lemma FoundExactly(row: StockRow, left: string, zeros: string, number: string, right: string)
    requires number != "" && number[0] != '0' && !IsSpace(number[0]) && !IsSpace(number[|number| - 1])
    requires (forall c :: c in left + right ==> IsSpace(c)) && forall c :: c in zeros ==> c == '0'
    ensures Matches(row, left + (zeros + number) + right)
       <==> row.isActive && !row.isDeleted
            && (row.materialCode == number || row.materialCode == zeros + number || row.material == zeros + number
                || exists front :: row.material == front + number)
  {
    hide Strip, DropZeros, EndsWith;
    PaddedNumber(left, zeros, number, right);
    NoZeros(number);
    EndsWithIs(row.material, number);
  }

  lemma NoZeros(number: string)
    requires number != "" && number[0] != '0'
    ensures Short(number) == number
  {
  }

  /** A number of zeros only is looked up as zero, and an empty one too. */
  lemma ZeroIsFoundAsZero(row: StockRow, left: string, zeros: string, right: string)
    requires (forall c :: c in left + right ==> IsSpace(c)) && forall c :: c in zeros ==> c == '0'
    ensures Matches(row, left + zeros + right)
       <==> row.isActive && !row.isDeleted
            && (row.materialCode == "0" || row.materialCode == zeros || row.material == zeros
                || exists front :: row.material == front + "0")
  {
    hide EndsWith;
    if zeros == "" {
      assert left + zeros + right == left + right;
      assert AllSpaces(left + right);
      StripOfSpaces(left + right);
    } else {
      assert zeros[0] in zeros && zeros[|zeros| - 1] in zeros;
      StripOfSpaced(left, zeros, right);
      MoreZeros(zeros, "");
      assert zeros + "" == zeros;
    }
    EndsWithIs(row.material, "0");
  }

  lemma {:induction false} SameRows(table: seq<StockRow>, a: string, b: string)
    requires SameMaterial(a, b) && Strip(a) != "" && Strip(b) != ""
    requires forall i :: 0 <= i < |table| ==> IsShortCode(table[i].materialCode)
    ensures MatchingRows(table, a) == MatchingRows(table, b)
  {
    hide Matches, Strip;
    if table != [] {
      NotOnlyAsSpelled(table[0], Strip(a));
      NotOnlyAsSpelled(table[0], Strip(b));
      SpellingsAgree(table[0], a, b);
      SameRows(table[1..], a, b);
    }
  }

  lemma NotOnlyAsSpelled(row: StockRow, raw: string)
    requires raw != "" && IsShortCode(row.materialCode)
    ensures !OnlyAsSpelled(row, raw)
  {
    EndsInShort(raw);
    if row.materialCode == raw {
      assert Short(raw) == raw;
    }
  }
}
