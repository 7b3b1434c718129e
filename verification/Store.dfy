/**
 * The durable side: the two Postgres tables, the checkpoint register, and the statements that change them.
 *
 * A process can be lost between any two statements.  `writesLeft` is the number of statements that still
 * reach the database before that happens; quantifying over it quantifies over every crash point.
 */
module Stores {
  import opened Base
  import opened Accumulators

  datatype RowKey = RowKey(chainId: uint64, address: string, windowSecs: nat, windowStart: nat)

  /** The columns of a metrics row before they are printed; `lastBlock` is the block its TVL is read at. */
  datatype Row = Row(windowEnd: uint64, totals: Totals, lastBlock: uint64, token0: string, token1: string)

  datatype Metrics = Metrics(key: RowKey, row: Row)

  datatype PoolId = PoolId(chainId: uint64, address: string)

  datatype Pool = Pool(
    chainId: uint64, address: string, token0: string, token1: string,
    fee: uint32, tickSpacing: int, firstSeenBlock: uint64)
  {
    function Id(): PoolId {
      PoolId(chainId, address)
    }
  }

  datatype Write = PutPool(pool: Pool) | PutRow(metrics: Metrics) | Save(ts: nat)

  datatype Durable = Durable(rows: map<RowKey, Row>, pools: map<PoolId, Pool>, state: Option<nat>)

  function Min(a: uint64, b: uint64): uint64 {
    if a <= b then a else b
  }

  /** ON CONFLICT on `pools`: the new columns win, except that the first-seen block only goes down. */
  function UpsertPool(pools: map<PoolId, Pool>, p: Pool): map<PoolId, Pool> {
    var stored :=
      if p.Id() in pools then p.(firstSeenBlock := Min(pools[p.Id()].firstSeenBlock, p.firstSeenBlock)) else p;
    pools[p.Id() := stored]
  }

  function ApplyOne(d: Durable, w: Write): Durable {
    match w
    case PutPool(p) => d.(pools := UpsertPool(d.pools, p))
    case PutRow(m) => d.(rows := d.rows[m.key := m.row])
    case Save(ts) => d.(state := Some(ts))
  }

  /** The durable state after a sequence of statements. */
  function Apply(d: Durable, t: seq<Write>): Durable {
    if t == [] then d else ApplyOne(Apply(d, t[..|t| - 1]), t[|t| - 1])
  }

  lemma {:induction false} ApplyConcat(d: Durable, s: seq<Write>, t: seq<Write>)
    ensures Apply(d, s + t) == Apply(Apply(d, s), t)
  {
    if t == [] {
      assert s + t == s;
    } else {
      ApplyConcat(d, s, t[..|t| - 1]);
      assert (s + t)[..|s + t| - 1] == s + t[..|t| - 1];
    }
  }

  function PoolWrites(pools: seq<Pool>): seq<Write> {
    seq(|pools|, i requires 0 <= i < |pools| => PutPool(pools[i]))
  }

  function RowWrites(batch: seq<Metrics>): seq<Write> {
    seq(|batch|, i requires 0 <= i < |batch| => PutRow(batch[i]))
  }

  class Store {
    var rows: map<RowKey, Row>
    var pools: map<PoolId, Pool>
    var state: Option<nat>
    var writesLeft: nat

    ghost function Value(): Durable
      reads this
    {
      Durable(rows, pools, state)
    }

    constructor (d: Durable, writesLeft: nat)
      ensures Value() == d && this.writesLeft == writesLeft
    {
      rows, pools, state := d.rows, d.pools, d.state;
      this.writesLeft := writesLeft;
    }

    /** One statement: it takes effect completely, or the process is lost before it does. */
    method Exec(w: Write) returns (ok: bool)
      modifies this
      ensures Value() == Apply(old(Value()), Survives([w], old(writesLeft)))
      ensures ok == (1 <= old(writesLeft))
      ensures writesLeft == if ok then old(writesLeft) - 1 else 0
    {
      ok := writesLeft > 0;
      if ok {
        match w {
          case PutPool(p) =>
            if p.Id() in pools {
              pools := pools[p.Id() := p.(firstSeenBlock := Min(pools[p.Id()].firstSeenBlock, p.firstSeenBlock))];
            } else {
              pools := pools[p.Id() := p];
            }
          case PutRow(m) =>
            rows := rows[m.key := m.row];
          case Save(ts) =>
            state := Some(ts);
        }
        writesLeft := writesLeft - 1;
        assert [w][..0] == [];
      }
    }

    /** Sends the statements one after the other and stops at the first that fails. */
    method ExecAll(batch: seq<Write>) returns (ok: bool)
      modifies this
      ensures Value() == Apply(old(Value()), Survives(batch, old(writesLeft)))
      ensures ok == (|batch| <= old(writesLeft))
      ensures writesLeft == if ok then old(writesLeft) - |batch| else 0
    {
      for i := 0 to |batch|
        invariant i <= old(writesLeft) && writesLeft == old(writesLeft) - i
        invariant Value() == Apply(old(Value()), batch[..i])
      {
        ok := Exec(batch[i]);
        if !ok {
          return;
        }
        assert batch[..i + 1][..i] == batch[..i];
      }
      assert batch[..|batch|] == batch;
      ok := true;
    }

    method UpsertPools(pools: seq<Pool>) returns (ok: bool)
      modifies this
      ensures Value() == Apply(old(Value()), Survives(PoolWrites(pools), old(writesLeft)))
      ensures ok == (|pools| <= old(writesLeft))
      ensures writesLeft == if ok then old(writesLeft) - |pools| else 0
    {
      var queue: seq<Write> := [];
      for i := 0 to |pools|
        invariant queue == PoolWrites(pools[..i])
      {
        queue := queue + [PutPool(pools[i])];
      }
      assert pools[..|pools|] == pools;
      ok := ExecAll(queue);
    }

    method UpsertWindowMetrics(batch: seq<Metrics>) returns (ok: bool)
      modifies this
      ensures Value() == Apply(old(Value()), Survives(RowWrites(batch), old(writesLeft)))
      ensures ok == (|batch| <= old(writesLeft))
      ensures writesLeft == if ok then old(writesLeft) - |batch| else 0
    {
      var queue: seq<Write> := [];
      for i := 0 to |batch|
        invariant queue == RowWrites(batch[..i])
      {
        queue := queue + [PutRow(batch[i])];
      }
      assert batch[..|batch|] == batch;
      ok := ExecAll(queue);
    }

    method SaveState(ts: nat) returns (ok: bool)
      modifies this
      ensures Value() == Apply(old(Value()), Survives([Save(ts)], old(writesLeft)))
      ensures ok == (1 <= old(writesLeft))
      ensures writesLeft == if ok then old(writesLeft) - 1 else 0
    {
      ok := Exec(Save(ts));
    }

    method LoadState() returns (last: Option<nat>)
      ensures last == Value().state
    {
      last := state;
    }
  }

  // ----- What a sequence of statements does to each table separately

  function RowsOf(t: seq<Write>): seq<Metrics> {
    if t == [] then []
    else
      var init := RowsOf(t[..|t| - 1]);
      if t[|t| - 1].PutRow? then init + [t[|t| - 1].metrics] else init
  }

  function PoolsOf(t: seq<Write>): seq<Pool> {
    if t == [] then []
    else
      var init := PoolsOf(t[..|t| - 1]);
      if t[|t| - 1].PutPool? then init + [t[|t| - 1].pool] else init
  }

  function UpsertRows(rows: map<RowKey, Row>, ms: seq<Metrics>): map<RowKey, Row> {
    if ms == [] then rows else UpsertRows(rows, ms[..|ms| - 1])[ms[|ms| - 1].key := ms[|ms| - 1].row]
  }

  function UpsertAllPools(pools: map<PoolId, Pool>, ps: seq<Pool>): map<PoolId, Pool> {
    if ps == [] then pools else UpsertPool(UpsertAllPools(pools, ps[..|ps| - 1]), ps[|ps| - 1])
  }

  function LastSave(t: seq<Write>, state: Option<nat>): Option<nat> {
    if t == [] then state
    else if t[|t| - 1].Save? then Some(t[|t| - 1].ts)
    else LastSave(t[..|t| - 1], state)
  }

  lemma {:induction false} ApplyByTable(d: Durable, t: seq<Write>)
    ensures Apply(d, t).rows == UpsertRows(d.rows, RowsOf(t))
    ensures Apply(d, t).pools == UpsertAllPools(d.pools, PoolsOf(t))
    ensures Apply(d, t).state == LastSave(t, d.state)
  {
    if t != [] {
      ApplyByTable(d, t[..|t| - 1]);
    }
  }

  lemma {:induction false} ProjectConcat(s: seq<Write>, t: seq<Write>)
    ensures RowsOf(s + t) == RowsOf(s) + RowsOf(t)
    ensures PoolsOf(s + t) == PoolsOf(s) + PoolsOf(t)
  {
    if t == [] {
      assert s + t == s;
    } else {
      ProjectConcat(s, t[..|t| - 1]);
      assert (s + t)[..|s + t| - 1] == s + t[..|t| - 1];
    }
  }

  lemma {:induction false} ProjectPoolWrites(ps: seq<Pool>)
    ensures RowsOf(PoolWrites(ps)) == [] && PoolsOf(PoolWrites(ps)) == ps
  {
    if ps != [] {
      ProjectPoolWrites(ps[..|ps| - 1]);
      assert PoolWrites(ps)[..|ps| - 1] == PoolWrites(ps[..|ps| - 1]);
    }
  }

  lemma {:induction false} ProjectRowWrites(ms: seq<Metrics>)
    ensures RowsOf(RowWrites(ms)) == ms && PoolsOf(RowWrites(ms)) == []
  {
    if ms != [] {
      ProjectRowWrites(ms[..|ms| - 1]);
      assert RowWrites(ms)[..|ms| - 1] == RowWrites(ms[..|ms| - 1]);
    }
  }

  /** The last statement for `key` among `ms` is the i-th. */
  ghost predicate IsLastFor(ms: seq<Metrics>, key: RowKey, i: int) {
    0 <= i < |ms| && ms[i].key == key && forall j :: i < j < |ms| ==> ms[j].key != key
  }

  /** A row is what the last statement for its key wrote, or what it was before if there is none. */
  lemma {:induction false} UpsertRowsLookup(rows: map<RowKey, Row>, ms: seq<Metrics>, key: RowKey)
    ensures key in UpsertRows(rows, ms) <==> key in rows || exists m :: m in ms && m.key == key
    ensures key in UpsertRows(rows, ms) ==>
      || (exists i :: IsLastFor(ms, key, i) && ms[i].row == UpsertRows(rows, ms)[key])
      || ((forall m :: m in ms ==> m.key != key) && key in rows && UpsertRows(rows, ms)[key] == rows[key])
  {
    if ms != [] {
      var init, last := ms[..|ms| - 1], ms[|ms| - 1];
      UpsertRowsLookup(rows, init, key);
      assert ms == init + [last];
      assert last in ms;
      if last.key == key {
        assert IsLastFor(ms, key, |ms| - 1);
      } else if key in UpsertRows(rows, ms) && exists i :: IsLastFor(init, key, i) {
        var i :| IsLastFor(init, key, i) && init[i].row == UpsertRows(rows, init)[key];
        assert IsLastFor(ms, key, i);
      }
    }
  }
}
