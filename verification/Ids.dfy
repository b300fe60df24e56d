/** Chunk ids (axiom-fetch/ids.py). */
module Ids {
  import opened Wrappers
  import opened Text

  /** `f"{n:04d}"`. */
  function Index04(n: nat): string {
    if n < 10000 then Pad(n, 4) else Decimal(n)
  }

  /** `None` is the ValueError for an empty source id or a negative index. */
  function ChunkIdFor(sourceId: string, index: int): Option<string> {
    if sourceId == "" || index < 0 then None else Some(sourceId + "-" + Index04(index))
  }

  lemma Index04Value(n: nat)
    ensures AllDigits(Index04(n)) && Num(Index04(n)) == n
  {
    assert Pow10(4) == 10000;
    if n < 10000 {
      NumPad(n, 4);
    } else {
      NumDecimal(n);
    }
  }

  /** No two indices of a source share an id. */
  lemma ChunkIdInjective(sourceId: string, a: int, b: int)
    requires ChunkIdFor(sourceId, a).Some? && ChunkIdFor(sourceId, a) == ChunkIdFor(sourceId, b)
    ensures a == b
  {
    var p := sourceId + "-";
    assert (p + Index04(a))[|p|..] == Index04(a) && (p + Index04(b))[|p|..] == Index04(b);
    Index04Value(a);
    Index04Value(b);
  }

  function FileName(sourceId: string, index: nat): string {
    sourceId + "-" + Index04(index) + ".md"
  }

  /** A chunk's file is named after its id; ids take a source id that is not empty and an index from 0. */
  lemma FileIsId(sourceId: string, index: int)
    ensures ChunkIdFor(sourceId, index).Some? <==> sourceId != "" && index >= 0
    ensures ChunkIdFor(sourceId, index).Some? ==> FileName(sourceId, index) == ChunkIdFor(sourceId, index).value + ".md"
  {
  }

  /** The index is padded to four digits, and beyond them is as long as it has to be. */
  lemma IdSpelling(sourceId: string, index: nat)
    requires sourceId != ""
    ensures var id := ChunkIdFor(sourceId, index).value;
      && sourceId + "-" <= id
      && var digits := id[|sourceId| + 1..];
         && AllDigits(digits) && Num(digits) == index && |digits| >= 4 && (|digits| > 4 ==> digits[0] != '0')
  {
    hide Num;
    hide Pad;
    hide Decimal;
    Index04Value(index);
    var p := sourceId + "-";
    assert (p + Index04(index))[|p|..] == Index04(index);
    if index >= 10000 {
      DecimalLength(index);
    }
  }

  lemma DecimalLength(n: nat)
    requires n >= 10000
    ensures |Decimal(n)| >= 5 && Decimal(n)[0] != '0'
  {
    DecimalLeads(n);
    assert |Decimal(n / 10 / 10 / 10 / 10)| >= 1;
    assert |Decimal(n / 10 / 10 / 10)| >= 2;
    assert |Decimal(n / 10 / 10)| >= 3;
    assert |Decimal(n / 10)| >= 4;
  }

  lemma FileNameOrder(sourceId: string, a: nat, b: nat)
    ensures StrLt(FileName(sourceId, a), FileName(sourceId, b)) <==> StrLt(Index04(a) + ".md", Index04(b) + ".md")
  {
    var p := sourceId + "-";
    assert FileName(sourceId, a) == p + (Index04(a) + ".md") && FileName(sourceId, b) == p + (Index04(b) + ".md");
    StrLtPrefix(p, Index04(a) + ".md", Index04(b) + ".md");
  }

  /** The files of a source with indices up to `last` list in index order exactly when `last` is below 10000. */
  lemma FilesSortByIndex(sourceId: string, last: nat)
    ensures (forall a: nat, b: nat :: a < b <= last ==> StrLt(FileName(sourceId, a), FileName(sourceId, b)))
      <==> last <= 9999
  {
    assert Pow10(4) == 10000;
    if last <= 9999 {
      forall a: nat, b: nat | a < b <= last ensures StrLt(FileName(sourceId, a), FileName(sourceId, b)) {
        FileNameOrder(sourceId, a, b);
        PadOrder(a, b, 4);
        StrLtConcat(Pad(a, 4), Pad(b, 4), ".md", ".md");
      }
    } else {
      FileNameOrder(sourceId, 9999, 10000);
      TenThousandFirst();
    }
  }

  lemma TenThousandFirst()
    ensures !StrLt(Index04(9999) + ".md", Index04(10000) + ".md")
  {
    hide Index04;
    LeadingNine();
    LeadingOne();
    var a, b := Index04(9999), Index04(10000);
    assert (a + ".md")[0] == '9' && (b + ".md")[0] == '1';
  }

  lemma LeadingNine()
    ensures |Index04(9999)| > 0 && Index04(9999)[0] == '9'
  {
    assert Pad(9, 1) == "9";
    assert Pad(99, 2)[0] == '9';
    assert Pad(999, 3)[0] == '9';
    assert Pad(9999, 4)[0] == '9';
  }

  lemma LeadingOne()
    ensures |Index04(10000)| > 0 && Index04(10000)[0] == '1'
  {
    assert Decimal(1)[0] == '1';
    assert Decimal(10)[0] == '1';
    assert Decimal(100)[0] == '1';
    assert Decimal(1000)[0] == '1';
    assert Decimal(10000)[0] == '1';
  }
}
