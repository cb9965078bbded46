/** `Status.String()` as generated by the `stringer` tool: every name lives in
    one string, `StatusName`, and `StatusIndex[i]..StatusIndex[i+1]` is the
    slice holding the name of the constant numbered `i`. */
module StatusNames {
  import opened Basics
  import opened StatusEnum
  import opened Decimal

  const StatusName: string := "UndefinedCloseOpeningOpenErrorReopeningPortBusySignalCooper"

  /** An array of `uint8` in the program; every entry is below 256. */
  const StatusIndex: seq<nat> := [0, 9, 14, 21, 25, 30, 39, 47, 53, 59]

  const OutOfRangePrefix: string := "Status("

  /** The identifier each constant is declared with: what `String` promises to
      return for a named constant. */
  function Identifier(s: Status): string {
    match s
    case Undefined => "Undefined"
    case Close => "Close"
    case Opening => "Opening"
    case Open => "Open"
    case Error => "Error"
    case Reopening => "Reopening"
    case PortBusy => "PortBusy"
    case Signal => "Signal"
    case Cooper => "Cooper"
  }

  /** The table starts at 0, grows strictly, ends at the length of the name
      string and fits in a byte, so every slice `String` takes is in bounds and
      non-empty. */
  lemma IndexTableBounds()
    ensures |StatusIndex| == Count + 1
    ensures StatusIndex[0] == 0
    ensures forall k :: 0 <= k < Count ==> StatusIndex[k] < StatusIndex[k + 1]
    ensures StatusIndex[Count] == |StatusName|
    ensures forall k :: 0 <= k < |StatusIndex| ==> StatusIndex[k] < 256
  {
  }

  // Prefixes of the name string that end at an index-table entry. The name
  // string is a long literal, so each prefix is read off the next longer one
  // rather than off the whole string.
  lemma Prefix9()
    ensures StatusName[..9] == "Undefined"
  {
    Prefix14();
    assert StatusName[..9] == StatusName[..14][..9];
  }

  lemma Prefix14()
    ensures StatusName[..14] == "UndefinedClose"
  {
    Prefix21();
    assert StatusName[..14] == StatusName[..21][..14];
  }

  lemma Prefix21()
    ensures StatusName[..21] == "UndefinedCloseOpening"
  {
    Prefix25();
    assert StatusName[..21] == StatusName[..25][..21];
  }

  lemma Prefix25()
    ensures StatusName[..25] == "UndefinedCloseOpeningOpen"
  {
    Prefix30();
    assert StatusName[..25] == StatusName[..30][..25];
  }

  lemma Prefix30()
    ensures StatusName[..30] == "UndefinedCloseOpeningOpenError"
  {
    Prefix39();
    assert StatusName[..30] == StatusName[..39][..30];
  }

  lemma Prefix39()
    ensures StatusName[..39] == "UndefinedCloseOpeningOpenErrorReopening"
  {
    Prefix47();
    assert StatusName[..39] == StatusName[..47][..39];
  }

  lemma Prefix47()
    ensures StatusName[..47] == "UndefinedCloseOpeningOpenErrorReopeningPortBusy"
  {
    Prefix53();
    assert StatusName[..47] == StatusName[..53][..47];
  }

  lemma Prefix53()
    ensures StatusName[..53] == "UndefinedCloseOpeningOpenErrorReopeningPortBusySignal"
  {
  }

  /** Each name is the tail of the prefix that ends with it. */
  lemma Slices()
    ensures StatusName[0..9] == "Undefined"
    ensures StatusName[9..14] == "Close"
    ensures StatusName[14..21] == "Opening"
    ensures StatusName[21..25] == "Open"
    ensures StatusName[25..30] == "Error"
    ensures StatusName[30..39] == "Reopening"
    ensures StatusName[39..47] == "PortBusy"
    ensures StatusName[47..53] == "Signal"
    ensures StatusName[53..59] == "Cooper"
  {
    Prefix9(); Prefix14(); Prefix21(); Prefix25(); Prefix30(); Prefix39(); Prefix47(); Prefix53();
    assert StatusName[9..14] == StatusName[..14][9..];
    assert StatusName[14..21] == StatusName[..21][14..];
    assert StatusName[21..25] == StatusName[..25][21..];
    assert StatusName[25..30] == StatusName[..30][25..];
    assert StatusName[30..39] == StatusName[..39][30..];
    assert StatusName[39..47] == StatusName[..47][39..];
    assert StatusName[47..53] == StatusName[..53][47..];
    assert StatusName[53..59] == StatusName[53..];
  }

  /** Each slice of the name string is the identifier of the constant with
      that number. */
  lemma SlicesAreIdentifiers()
    ensures forall k :: 0 <= k < Count ==>
      StatusName[StatusIndex[k]..StatusIndex[k + 1]] == Identifier(Declared[k])
  {
    Slices();
  }

  /** `Status(i).String()`. */
  function String(i: int): (r: string)
    ensures 0 <= i < Count ==> r == Identifier(Declared[i])
    ensures (i < 0 || i >= Count) ==>
      |r| > |OutOfRangePrefix| && r[..|OutOfRangePrefix|] == OutOfRangePrefix && r[|r| - 1] == ')'
      && r[|OutOfRangePrefix|..|r| - 1] == FromInt(i)
      && Canonical(r[|OutOfRangePrefix|..|r| - 1])
      && ParseInt(r[|OutOfRangePrefix|..|r| - 1]) == Some(i)
  {
    IndexTableBounds();
    if i < 0 || i >= |StatusIndex| - 1 then
      var r := OutOfRangePrefix + FromInt(i) + ")";
      assert r[|OutOfRangePrefix|..|r| - 1] == FromInt(i);
      IntRoundTrip(i);
      FromIntCanonical(i);
      r
    else
      SlicesAreIdentifiers();
      StatusName[StatusIndex[i]..StatusIndex[i + 1]]
  }

  /** The names of the first `n` constants, in order, run together. */
  function Names(n: nat): string
    requires n <= Count
  {
    if n == 0 then "" else Names(n - 1) + String(n - 1)
  }

  lemma {:induction false} NamesArePrefixes(n: nat)
    requires n <= Count
    ensures Names(n) == StatusName[..StatusIndex[n]]
  {
    IndexTableBounds();
    if n > 0 {
      NamesArePrefixes(n - 1);
      SlicesAreIdentifiers();
      PrefixExtend(StatusName, StatusIndex[n - 1], StatusIndex[n]);
    }
  }

  /** Running the nine names together in declaration order gives back the
      name string, so the table wastes and overlaps nothing. */
  lemma NamesConcatenate()
    ensures Names(Count) == StatusName
  {
    NamesArePrefixes(Count);
    assert StatusName[..|StatusName|] == StatusName;
  }

  /** No identifier has a 't' in second position, while every out-of-range
      rendering starts with "St". */
  lemma IdentifierSecondChar(s: Status)
    ensures |Identifier(s)| > 1 && Identifier(s)[1] != 't'
  {
  }

  /** Different values of the integer type always render differently, named or
      not. */
  lemma StringInjective(i: int, j: int)
    requires String(i) == String(j)
    ensures i == j
  {
    var inI, inJ := 0 <= i < Count, 0 <= j < Count;
    if inI && inJ {
      assert Ordinal(Declared[i]) == i && Ordinal(Declared[j]) == j by {
        DeclarationOrder();
      }
      if Declared[i] != Declared[j] {
        IdentifierDistinct(Declared[i], Declared[j]);
      }
    } else if inI {
      IdentifierSecondChar(Declared[i]);
    } else if inJ {
      IdentifierSecondChar(Declared[j]);
    }
  }

  lemma IdentifierDistinct(s: Status, t: Status)
    requires s != t
    ensures Identifier(s) != Identifier(t)
  {
  }

  lemma PrefixExtend(s: string, lo: nat, hi: nat)
    requires lo <= hi <= |s|
    ensures s[..hi] == s[..lo] + s[lo..hi]
  {
  }
}
