/** The records of an arm-sweep dump (go/internal/armsweep/dump.go, go/internal/rrf/arms.go). */
module Dumps {
  import opened Options

  /** Ranks start at one; a missing rank is None. */
  type Rank = r: int | 1 <= r witness 1

  datatype ArmRow = ArmRow(
    id: string,
    rankSemantic: Option<Rank>,
    rankFtsDe: Option<Rank>,
    rankFtsEn: Option<Rank>,
    rankTrigram: Option<Rank>,
    massFactor: real,
    typeFactor: real,
    typeName: string)

  datatype Selector = Selector(mode: string, scanTuples: Option<int>)

  datatype Record = Record(
    slice: string,
    index: int,
    querySha: string,
    split: string,
    regime: string,
    goldIds: seq<string>,
    rows: seq<ArmRow>,
    delivered: seq<string>,
    effectiveTemporal: string,
    selector: Selector)

  function Digits(n: nat): string
  {
    var d := [('0' as int + n % 10) as char];
    if n < 10 then d else Digits(n / 10) + d
  }

  function Decimal(n: int): string
  {
    if n < 0 then "-" + Digits(-n) else Digits(n)
  }

  /**
   One value the decoder meets in a dump: a record with its case key (slice, index and query digest), or bytes
   that do not decode.
   */
  datatype Item = Rec(key: string, rec: Record) | Broken

  /** The key that identifies a case across dumps. */
  function CaseKey(rec: Record): string
  {
    rec.slice + "/" + Decimal(rec.index) + "/" + rec.querySha
  }

  /** The items of a dump that decodes throughout. */
  function ItemsOf(records: seq<Record>): seq<Item>
  {
    seq(|records|, i requires 0 <= i < |records| => Rec(CaseKey(records[i]), records[i]))
  }
}
