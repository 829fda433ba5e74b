/**
 * The sector filter of `get_all_tickers_with_sectors`
 * (src/utils/helpers.py): the ticker list of the sidebar, for the sector
 * key the user picked. The table is the ticker/sector file, in file order;
 * reading it is not modelled.
 */
module Sectors {
  import opened Wrappers

  datatype TickerSector = TickerSector(ticker: string, sector: string)

  /** The sector key that stands for every sector. */
  const AllKey: string := "all"

  /** The whole ticker column, in file order. */
  function AllTickers(table: seq<TickerSector>): (r: seq<string>)
    ensures |r| == |table| && forall k :: 0 <= k < |table| ==> r[k] == table[k].ticker
  {
    seq(|table|, k requires 0 <= k < |table| => table[k].ticker)
  }

  /** The tickers whose sector equals `key`, in file order. */
  function InSector(table: seq<TickerSector>, key: string): (r: seq<string>)
    ensures |r| <= |table|
    ensures forall t :: t in r <==> exists k :: 0 <= k < |table| && table[k].sector == key && table[k].ticker == t
  {
    if table == [] then []
    else
      var init := table[..|table| - 1];
      var last := table[|table| - 1];
      var r := InSector(init, key);
      assert forall k :: 0 <= k < |init| ==> init[k] == table[k];
      if last.sector == key then r + [last.ticker] else r
  }

  /** Filtering a table in two parts filters each part in turn: the
      selection keeps file order. */
  lemma {:induction false} InSectorAppend(a: seq<TickerSector>, b: seq<TickerSector>, key: string)
    ensures InSector(a + b, key) == InSector(a, key) + InSector(b, key)
  {
    if b == [] {
      assert a + b == a;
    } else {
      var b' := b[..|b| - 1];
      assert (a + b)[..|a + b| - 1] == a + b';
      InSectorAppend(a, b', key);
    }
  }

  /** `get_all_tickers_with_sectors`: only the first key counts; an empty
      key list makes `selected_sector_key[0]` raise. */
  function GetAllTickersWithSectors(keys: seq<string>, table: seq<TickerSector>): (r: Result<seq<string>, string>)
    ensures r.Ok? <==> keys != []
    ensures r.Ok? && keys[0] == AllKey ==> r.value == AllTickers(table)
    ensures r.Ok? && keys[0] != AllKey ==> r.value == InSector(table, keys[0])
  {
    if keys == [] then Err("list index out of range")
    else if keys[0] == AllKey then Ok(AllTickers(table))
    else Ok(InSector(table, keys[0]))
  }

  /** Keys after the first are ignored. */
  lemma FirstKeyOnly(key: string, rest: seq<string>, table: seq<TickerSector>)
    ensures GetAllTickersWithSectors([key] + rest, table) == GetAllTickersWithSectors([key], table)
  {
  }

  /** A named sector selects a subset of what "all" selects. */
  lemma {:induction false} SectorWithinAll(table: seq<TickerSector>, key: string, t: string)
    requires t in InSector(table, key)
    ensures t in AllTickers(table)
  {
    var k :| 0 <= k < |table| && table[k].sector == key && table[k].ticker == t;
    assert AllTickers(table)[k] == t;
  }
}
