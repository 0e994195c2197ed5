/** Turning rows of a statistics table into messages: the location query splits the rows into a
    core and an expanded pool, old rows are skipped, and every defined value column of a row
    becomes one single-fact message. */
module MessageGenerator {
  import opened Wrappers
  import opened Text
  import opened Models

  /** One row of the data frame: the six meta columns, and every other column by name. The type,
      timestamp type and agent type columns hold strings. */
  datatype Row = Row(location: Value, locationType: string, timestamp: Value, timestampType: string,
                     agent: Value, agentType: string, cells: map<string, Value>)

  /** A data frame: its column names in order (meta columns included), and its rows. */
  datatype Frame = Frame(columns: seq<string>, rows: seq<Row>)

  /** The columns that describe a row rather than hold a value. */
  const MetaColumns: seq<string> := ["location", "location_type", "timestamp", "timestamp_type", "agent", "agent_type"]

  /** `row.get(key, None)` for a value column. */
  function Get(cells: map<string, Value>, key: string): Value {
    if key in cells then cells[key] else VNone
  }

  // ---------------------------------------------------------------- pools

  /** Whether the query `location == q` selects the row. */
  predicate AtLocation(row: Row, q: string) {
    PyEq(row.location, VStr(q))
  }

  /** The rows the query `location == q` (keep) or `location != q` (not keep) selects, in order. */
  function Select(rows: seq<Row>, q: string, keep: bool): (r: seq<Row>)
    ensures forall i :: 0 <= i < |r| ==> AtLocation(r[i], q) == keep
  {
    if rows == [] then []
    else
      var rest := Select(rows[1..], q, keep);
      if AtLocation(rows[0], q) == keep then [rows[0]] + rest else rest
  }

  /** The two selections together are exactly the rows: every row lands in one pool. */
  lemma {:induction false} SelectPartition(rows: seq<Row>, q: string)
    ensures multiset(Select(rows, q, true)) + multiset(Select(rows, q, false)) == multiset(rows)
  {
    if rows != [] {
      SelectPartition(rows[1..], q);
      assert rows == [rows[0]] + rows[1..];
    }
  }

  /** The core pool and, when there is one, the expanded pool. */
  datatype Pools = Pools(core: seq<Row>, expanded: Option<seq<Row>>)

  /** The pools of a location query: "all" puts every row in the core and has no expanded pool;
      otherwise the core is the queried location and, when expanding, the rest is expanded. */
  function SplitPools(rows: seq<Row>, q: string, expand: bool): (r: Pools)
    ensures q == "all" ==> r.core == rows && r.expanded == None
    ensures q != "all" ==> forall i :: 0 <= i < |r.core| ==> AtLocation(r.core[i], q)
    ensures q != "all" && r.expanded.Some? ==> forall i :: 0 <= i < |r.expanded.value| ==> !AtLocation(r.expanded.value[i], q)
    ensures r.expanded.Some? <==> q != "all" && expand
    ensures r.expanded.Some? ==> multiset(r.core) + multiset(r.expanded.value) == multiset(rows)
    ensures r.expanded.None? ==> multiset(r.core) <= multiset(rows)
  {
    if q == "all" then Pools(rows, None)
    else if expand then
      SelectPartition(rows, q);
      Pools(Select(rows, q, true), Some(Select(rows, q, false)))
    else
      SelectPartition(rows, q);
      Pools(Select(rows, q, true), None)
  }

  /** A column holding a value: not a meta column, not ignored, not an outlierness column. */
  predicate IsValueColumn(c: string, ignored: seq<string>) {
    !(c in MetaColumns || c in ignored || Contains(c, ":outlierness"))
  }

  /** The value columns of the frame, in column order. */
  function ValueColumns(columns: seq<string>, ignored: seq<string>): (r: seq<string>)
    ensures forall c :: c in r <==> c in columns && IsValueColumn(c, ignored)
    ensures |r| <= |columns|
  {
    if columns == [] then []
    else
      var rest := ValueColumns(columns[1..], ignored);
      assert columns == [columns[0]] + columns[1..];
      if IsValueColumn(columns[0], ignored) then [columns[0]] + rest else rest
  }

  // ---------------------------------------------------------------- one row

  /** Python's `int(x)` of a float: truncation toward zero. */
  function Trunc(x: real): int {
    if x >= 0.0 then x.Floor else -((-x).Floor)
  }

  /** The timestamp cell as the facts store it: a float becomes the numeral of its integer part
      (NaN cannot be converted), a string stays, and an integer, which the program keeps as it is,
      is stored as its decimal numeral. */
  function TimestampText(v: Value): (r: Result<string>)
    ensures v.VReal? ==> r.Ok? && ParseInt(r.value) == Some(Trunc(v.r))
    ensures v.VStr? ==> r == Ok(v.s)
    ensures v.VInt? ==> r.Ok? && ParseInt(r.value) == Some(v.i)
    ensures r.Ok? <==> v.VReal? || v.VStr? || v.VInt?
  {
    match v
    case VReal(x) => ParseIntOfInt(Trunc(x)); Ok(IntToString(Trunc(x)))
    case VStr(s) => Ok(s)
    case VInt(i) => ParseIntOfInt(i); Ok(IntToString(i))
    case VNaN => Err(NaNToInt())
    case _ => Err(TimestampNotText())
  }

  /** Whether a row is recent enough to keep, given the current year: monthly data of this and last
      year, yearly data of the last three years, anything else. A monthly timestamp is "<year>M<month>". */
  function Recent(timestamp: string, timestampType: string, now: int): Result<bool> {
    if timestampType == "month" then
      var parts := SplitOn(timestamp, 'M');
      if |parts| != 2 then Err(BadUnpack())
      else
        var year := ParseInt(parts[0]);
        if year.None? then Err(NotAnInt(parts[0])) else Ok(year.value >= now - 1)
    else if timestampType == "year" then
      var year := ParseInt(timestamp);
      if year.None? then Err(NotAnInt(timestamp)) else Ok(year.value >= now - 3)
    else Ok(true)
  }

  /** The recency test of a row: an integer timestamp on a monthly row has no `split` (an
      AttributeError); a yearly one is read by `int` as it is. */
  function RowRecent(row: Row, stamp: string, now: int): Result<bool> {
    if row.timestamp.VInt? && row.timestampType == "month" then Err(AttributeError("split"))
    else Recent(stamp, row.timestampType, now)
  }

  /** A value that counts as present: not None, not the empty string, not NaN. */
  predicate Defined(v: Value) {
    !(v == VNone || v == VStr("") || v == VNaN)
  }

  /** The outlierness of a column, falling back to the time-grouped one when the first is falsy. */
  function Outlierness(cells: map<string, Value>, col: string): Value {
    var o := Get(cells, col + ":outlierness");
    if Truthy(o) then o else Get(cells, col + ":grouped_by_time:outlierness")
  }

  lemma EntityTagShape(ty: string, id: string)
    ensures StartsWith(EntityTag(ty, id), "[ENTITY:") && EndsWith(EntityTag(ty, id), ":" + id + "]")
  {
    var tag := EntityTag(ty, id);
    assert tag == "[ENTITY:" + (ty + (":" + id + "]"));
    assert tag == ("[ENTITY:" + ty) + (":" + id + "]");
  }

  /** What every fact of a kept row shares: its location tag, the location, agent and time fields. */
  function RowFact(row: Row, stamp: string, env: Env): Fact {
    Fact(EntityTag(row.locationType, Show(row.location, env)), row.locationType, VNone, "", row.agent,
         row.agentType, stamp, row.timestampType, VNone)
  }

  /** The columns of a row whose values are defined, in order. */
  function DefinedColumns(cells: map<string, Value>, cols: seq<string>): (r: seq<string>)
    ensures forall k :: 0 <= k < |r| ==> r[k] in cells && Defined(cells[r[k]])
  {
    if cols == [] then []
    else if cols[0] in cells && Defined(cells[cols[0]]) then [cols[0]] + DefinedColumns(cells, cols[1..])
    else DefinedColumns(cells, cols[1..])
  }

  /** The fact of one value column. */
  function ColumnFact(proto: Fact, cells: map<string, Value>, col: string): Fact
    requires col in cells
  {
    proto.(value := cells[col], valueType := col, outlierness := Outlierness(cells, col))
  }

  /** Messages already produced ahead of a result. */
  function Prepend(out: seq<Message>, r: Result<seq<Message>>): Result<seq<Message>> {
    if r.Err? then r else Ok(out + r.value)
  }

  /** The ids of a list of messages run from `id` upwards. */
  predicate NumberedFrom(ms: seq<Message>, id: nat) {
    forall k :: 0 <= k < |ms| ==> ms[k].id == id + k
  }

  /** Single-fact messages that share the location and time of `proto`. */
  predicate SharedFrom(ms: seq<Message>, proto: Fact) {
    forall k :: 0 <= k < |ms| ==>
      && ms[k].facts == [ms[k].mainFact]
      && ms[k].mainFact.location == proto.location
      && ms[k].mainFact.timestamp == proto.timestamp
      && ms[k].mainFact.timestampType == proto.timestampType
  }

  /** The messages of one kept row, numbered from `id`, one per defined value column; a missing
      column is a KeyError. */
  function ColumnMessages(cells: map<string, Value>, cols: seq<string>, proto: Fact, id: nat): (r: Result<seq<Message>>)
    ensures r.Ok? ==> NumberedFrom(r.value, id) && SharedFrom(r.value, proto)
    decreases |cols|
  {
    if cols == [] then Ok([])
    else if cols[0] !in cells then Err(KeyError(cols[0]))
    else if !Defined(cells[cols[0]]) then ColumnMessages(cells, cols[1..], proto, id)
    else Prepend([MessageOfFact(id, ColumnFact(proto, cells, cols[0]))], ColumnMessages(cells, cols[1..], proto, id + 1))
  }

  /** The messages of a row exist exactly when every value column is present in it. */
  lemma {:induction false} ColumnMessagesOk(cells: map<string, Value>, cols: seq<string>, proto: Fact, id: nat)
    ensures ColumnMessages(cells, cols, proto, id).Ok? <==> forall j :: 0 <= j < |cols| ==> cols[j] in cells
    decreases |cols|
  {
    if cols != [] {
      ColumnMessagesOk(cells, cols[1..], proto, id);
      ColumnMessagesOk(cells, cols[1..], proto, id + 1);
      assert forall j :: 1 <= j < |cols| ==> cols[j] == cols[1..][j - 1];
    }
  }

  /** Exactly one message per defined column, in column order: the k-th holds the k-th defined
      column's value, with that column as its value type and its outlierness. */
  lemma {:induction false} ColumnMessagesContent(cells: map<string, Value>, cols: seq<string>, proto: Fact, id: nat)
    requires ColumnMessages(cells, cols, proto, id).Ok?
    ensures var ms := ColumnMessages(cells, cols, proto, id).value;
      |ms| == |DefinedColumns(cells, cols)| &&
      forall k :: 0 <= k < |ms| ==> ms[k] == MessageOfFact(id + k, ColumnFact(proto, cells, DefinedColumns(cells, cols)[k]))
    decreases |cols|
  {
    if cols != [] {
      if !Defined(cells[cols[0]]) {
        ColumnMessagesContent(cells, cols[1..], proto, id);
      } else {
        ColumnMessagesContent(cells, cols[1..], proto, id + 1);
        var rest := ColumnMessages(cells, cols[1..], proto, id + 1).value;
        var ms := [MessageOfFact(id, ColumnFact(proto, cells, cols[0]))] + rest;
        assert ColumnMessages(cells, cols, proto, id).value == ms;
        assert DefinedColumns(cells, cols) == [cols[0]] + DefinedColumns(cells, cols[1..]);
        forall k | 1 <= k < |ms| ensures ms[k] == MessageOfFact(id + k, ColumnFact(proto, cells, DefinedColumns(cells, cols)[k])) {
          assert ms[k] == rest[k - 1];
        }
      }
    }
  }

  /** Every message of a list is a single-fact message about a recent row. */
  predicate AllRecent(ms: seq<Message>, now: int) {
    forall k :: 0 <= k < |ms| ==>
      && ms[k].facts == [ms[k].mainFact]
      && Recent(ms[k].mainFact.timestamp, ms[k].mainFact.timestampType, now) == Ok(true)
  }

  /** `_gen_messages` for one row: nothing for a row that is too old; otherwise numbered recent
      messages whose location is the row's entity tag. */
  function RowMessages(row: Row, cols: seq<string>, id: nat, now: int, env: Env): (r: Result<seq<Message>>)
    ensures r.Ok? ==> NumberedFrom(r.value, id) && AllRecent(r.value, now)
    ensures r.Ok? ==> forall k :: 0 <= k < |r.value| ==>
      r.value[k].mainFact.location == EntityTag(row.locationType, Show(row.location, env))
  {
    var stamp :- TimestampText(row.timestamp);
    var keep :- RowRecent(row, stamp, now);
    if !keep then Ok([])
    else
      assert Recent(stamp, row.timestampType, now) == Ok(true);
      ColumnMessages(row.cells, cols, RowFact(row, stamp, env), id)
  }

  /** `frame.apply(_gen_messages, axis=1)` into one list: the messages of the rows in order,
      numbered on from `id`. */
  function FrameMessages(rows: seq<Row>, cols: seq<string>, id: nat, now: int, env: Env): (r: Result<seq<Message>>)
    decreases |rows|
  {
    if rows == [] then Ok([])
    else
      var first :- RowMessages(rows[0], cols, id, now, env);
      Prepend(first, FrameMessages(rows[1..], cols, id + |first|, now, env))
  }

  /** Messages that all carry the entity tag of location q. */
  predicate TaggedWith(ms: seq<Message>, q: string) {
    forall k :: 0 <= k < |ms| ==> StartsWith(ms[k].mainFact.location, "[ENTITY:") && EndsWith(ms[k].mainFact.location, ":" + q + "]")
  }

  /** A row at location q yields messages tagged with q. */
  lemma RowMessagesTagged(row: Row, cols: seq<string>, id: nat, now: int, env: Env, q: string)
    requires AtLocation(row, q) && RowMessages(row, cols, id, now, env).Ok?
    ensures TaggedWith(RowMessages(row, cols, id, now, env).value, q)
  {
    hide RowMessages;
    assert row.location == VStr(q);
    EntityTagShape(row.locationType, q);
  }

  /** The messages of a frame are numbered on from `id`, so no two share an id, and all of them are
      single-fact messages about recent rows. */
  lemma {:induction false} FrameMessagesShape(rows: seq<Row>, cols: seq<string>, id: nat, now: int, env: Env)
    requires FrameMessages(rows, cols, id, now, env).Ok?
    ensures NumberedFrom(FrameMessages(rows, cols, id, now, env).value, id)
    ensures AllRecent(FrameMessages(rows, cols, id, now, env).value, now)
    decreases |rows|
  {
    hide *;
    if rows == [] {
      NoFrameMessages(cols, id, now, env);
    } else {
      FrameUnfold(rows, cols, id, now, env);
      var first := RowMessages(rows[0], cols, id, now, env).value;
      FrameMessagesShape(rows[1..], cols, id + |first|, now, env);
      var rest := FrameMessages(rows[1..], cols, id + |first|, now, env).value;
      ConcatShape(first, rest, id, now);
    }
  }

  lemma NoFrameMessages(cols: seq<string>, id: nat, now: int, env: Env)
    ensures FrameMessages([], cols, id, now, env) == Ok([]) && NumberedFrom([], id) && AllRecent([], now)
  {
  }

  /** A successful `FrameMessages` is the first row's messages followed by those of the rest. */
  lemma FrameUnfold(rows: seq<Row>, cols: seq<string>, id: nat, now: int, env: Env)
    requires rows != [] && FrameMessages(rows, cols, id, now, env).Ok?
    ensures RowMessages(rows[0], cols, id, now, env).Ok?
    ensures FrameMessages(rows[1..], cols, id + |RowMessages(rows[0], cols, id, now, env).value|, now, env).Ok?
    ensures FrameMessages(rows, cols, id, now, env).value == RowMessages(rows[0], cols, id, now, env).value
      + FrameMessages(rows[1..], cols, id + |RowMessages(rows[0], cols, id, now, env).value|, now, env).value
  {
    hide RowMessages;
  }

  /** Rows of one location give messages whose location is that location's entity tag. */
  lemma {:induction false} FrameMessagesAt(rows: seq<Row>, cols: seq<string>, id: nat, now: int, env: Env, q: string)
    requires FrameMessages(rows, cols, id, now, env).Ok?
    requires forall i :: 0 <= i < |rows| ==> AtLocation(rows[i], q)
    ensures TaggedWith(FrameMessages(rows, cols, id, now, env).value, q)
    decreases |rows|
  {
    hide RowMessages;
    if rows != [] {
      var first := RowMessages(rows[0], cols, id, now, env).value;
      RowMessagesTagged(rows[0], cols, id, now, env, q);
      assert forall i :: 0 <= i < |rows[1..]| ==> AtLocation(rows[1..][i], q) by {
        forall i | 0 <= i < |rows[1..]| ensures AtLocation(rows[1..][i], q) {
          assert rows[1..][i] == rows[i + 1];
        }
      }
      FrameMessagesAt(rows[1..], cols, id + |first|, now, env, q);
      var rest := FrameMessages(rows[1..], cols, id + |first|, now, env).value;
      assert FrameMessages(rows, cols, id, now, env).value == first + rest;
    }
  }

  // ---------------------------------------------------------------- the whole generator

  /** The core and expanded messages of a query, numbered from `id`; no core message is an error. */
  function Generate(frame: Frame, q: string, expand: bool, ignored: Option<seq<string>>, now: int, id: nat, env: Env)
    : (r: Result<(seq<Message>, seq<Message>)>)
    ensures r.Ok? ==> r.value.0 != []
    ensures r.Ok? && (q == "all" || !expand) ==> r.value.1 == []
  {
    var pools := SplitPools(frame.rows, q, expand);
    var cols := ValueColumns(frame.columns, if ignored.Some? then ignored.value else []);
    var core :- FrameMessages(pools.core, cols, id, now, env);
    var expanded :- if pools.expanded.Some? then FrameMessages(pools.expanded.value, cols, id + |core|, now, env)
                    else Ok([]);
    if core == [] then Err(NoMessagesForSelection) else Ok((core, expanded))
  }

  /** What the generator returns: all ids distinct, every message recent, the core messages about the
      queried location unless the query is "all", and the expanded ones about other rows. */
  lemma GenerateMeaning(frame: Frame, q: string, expand: bool, ignored: Option<seq<string>>, now: int, id: nat, env: Env)
    requires Generate(frame, q, expand, ignored, now, id, env).Ok?
    ensures var (core, expanded) := Generate(frame, q, expand, ignored, now, id, env).value;
      && NumberedFrom(core + expanded, id)
      && AllRecent(core + expanded, now)
      && (q != "all" ==> TaggedWith(core, q))
  {
    hide Generate, RowMessages, FrameMessages, SplitPools, ValueColumns;
    var core, expanded := GenerateParts(frame, q, expand, ignored, now, id, env);
    var pools := SplitPools(frame.rows, q, expand);
    var cols := ValueColumns(frame.columns, if ignored.Some? then ignored.value else []);
    FrameMessagesShape(pools.core, cols, id, now, env);
    if pools.expanded.Some? {
      FrameMessagesShape(pools.expanded.value, cols, id + |core|, now, env);
    }
    ConcatShape(core, expanded, id, now);
    if q != "all" {
      FrameMessagesAt(pools.core, cols, id, now, env, q);
    }
  }

  /** The two lists of a successful run, in terms of the pools. */
  lemma GenerateParts(frame: Frame, q: string, expand: bool, ignored: Option<seq<string>>, now: int, id: nat, env: Env)
    returns (core: seq<Message>, expanded: seq<Message>)
    requires Generate(frame, q, expand, ignored, now, id, env).Ok?
    ensures Generate(frame, q, expand, ignored, now, id, env) == Ok((core, expanded))
    ensures FrameMessages(SplitPools(frame.rows, q, expand).core,
                          ValueColumns(frame.columns, if ignored.Some? then ignored.value else []), id, now, env) == Ok(core)
    ensures SplitPools(frame.rows, q, expand).expanded.None? ==> expanded == []
    ensures SplitPools(frame.rows, q, expand).expanded.Some? ==>
      FrameMessages(SplitPools(frame.rows, q, expand).expanded.value,
                    ValueColumns(frame.columns, if ignored.Some? then ignored.value else []), id + |core|, now, env) == Ok(expanded)
  {
    hide RowMessages, FrameMessages, SplitPools, ValueColumns;
    core := Generate(frame, q, expand, ignored, now, id, env).value.0;
    expanded := Generate(frame, q, expand, ignored, now, id, env).value.1;
  }

  /** Two runs of numbered recent messages, the second numbered on from the first, make one. */
  lemma ConcatShape(a: seq<Message>, b: seq<Message>, id: nat, now: int)
    requires NumberedFrom(a, id) && NumberedFrom(b, id + |a|) && AllRecent(a, now) && AllRecent(b, now)
    ensures NumberedFrom(a + b, id) && AllRecent(a + b, now)
  {
    assert forall k :: |a| <= k < |a + b| ==> (a + b)[k] == b[k - |a|];
  }

  /** Two messages of one generator run never share an id. */
  lemma NumberedDistinct(ms: seq<Message>, id: nat, i: nat, j: nat)
    requires NumberedFrom(ms, id) && i < j < |ms|
    ensures ms[i].id != ms[j].id
  {
  }

  /** `_gen_messages`: appends the messages of one row to `messages`, numbering them from `nextId`. */
  method GenMessages(row: Row, cols: seq<string>, messages: seq<Message>, nextId: nat, now: int, env: Env)
    returns (r: Result<seq<Message>>)
    ensures r == Prepend(messages, RowMessages(row, cols, nextId, now, env))
  {
    RowMessagesCases(row, cols, nextId, now, env);
    hide RowMessages, TimestampText, RowRecent, ColumnMessages, RowFact, Outlierness, MessageOfFact;
    var stamp := TimestampText(row.timestamp);
    if stamp.Err? {
      return Err(stamp.error);
    }
    var keep := RowRecent(row, stamp.value, now);
    if keep.Err? {
      return Err(keep.error);
    }
    if !keep.value {
      assert messages + [] == messages;
      return Ok(messages);
    }
    var proto := RowFact(row, stamp.value, env);
    var out := messages;
    var id := nextId;
    var i := 0;
    assert cols[0..] == cols;
    while i < |cols|
      invariant 0 <= i <= |cols|
      invariant Prepend(messages, ColumnMessages(row.cells, cols, proto, nextId))
        == Prepend(out, ColumnMessages(row.cells, cols[i..], proto, id))
    {
      ColumnStep(row.cells, cols, i, proto, id);
      var col := cols[i];
      if col !in row.cells {
        return Err(KeyError(col));
      }
      var value := row.cells[col];
      if Defined(value) {
        var m := MessageOfFact(id, proto.(value := value, valueType := col, outlierness := Outlierness(row.cells, col)));
        PrependTwice(out, [m], ColumnMessages(row.cells, cols[i + 1..], proto, id + 1));
        out := out + [m];
        id := id + 1;
      }
      i := i + 1;
    }
    assert cols[i..] == [];
    NoColumnMessages(row.cells, proto, id);
    assert out + [] == out;
    return Ok(out);
  }

  /** The cases of `RowMessages`: a bad timestamp, a row too old to keep, or the row's column messages. */
  lemma RowMessagesCases(row: Row, cols: seq<string>, id: nat, now: int, env: Env)
    ensures var stamp := TimestampText(row.timestamp);
      RowMessages(row, cols, id, now, env) ==
        if stamp.Err? then Err(stamp.error)
        else
          var keep := RowRecent(row, stamp.value, now);
          if keep.Err? then Err(keep.error)
          else if !keep.value then Ok([])
          else ColumnMessages(row.cells, cols, RowFact(row, stamp.value, env), id)
  {
  }

  /** An integer timestamp on a yearly row is read as that year: a recent one gives the row's
      column messages, their facts stamped with its numeral. */
  lemma YearlyIntTimestamp(row: Row, cols: seq<string>, id: nat, now: int, env: Env)
    requires row.timestamp.VInt? && row.timestampType == "year"
    ensures row.timestamp.i < now - 3 ==> RowMessages(row, cols, id, now, env) == Ok([])
    ensures row.timestamp.i >= now - 3 ==>
      RowMessages(row, cols, id, now, env) == ColumnMessages(row.cells, cols, RowFact(row, IntToString(row.timestamp.i), env), id)
  {
    var i := row.timestamp.i;
    var stamp := IntToString(i);
    assert TimestampText(row.timestamp) == Ok(stamp);
    YearlyRecent(row, stamp, now, i);
    RowMessagesCases(row, cols, id, now, env);
  }

  lemma YearlyRecent(row: Row, stamp: string, now: int, i: int)
    requires row.timestampType == "year" && stamp == IntToString(i)
    ensures RowRecent(row, stamp, now) == Ok(i >= now - 3)
  {
    ParseIntOfInt(i);
    assert "year" != "month" by { assert "year"[0] != "month"[0]; }
  }

  /** An integer timestamp on a monthly row has no `split`: the row raises AttributeError. */
  lemma MonthlyIntTimestamp(row: Row, cols: seq<string>, id: nat, now: int, env: Env)
    requires row.timestamp.VInt? && row.timestampType == "month"
    ensures RowMessages(row, cols, id, now, env) == Err(AttributeError("split"))
  {
    RowMessagesCases(row, cols, id, now, env);
  }

  /** One round of `ColumnMessages` from column i. */
  lemma ColumnStep(cells: map<string, Value>, cols: seq<string>, i: nat, proto: Fact, id: nat)
    requires i < |cols|
    ensures var r := ColumnMessages(cells, cols[i..], proto, id);
      var c := cols[i];
      if c !in cells then r == Err(KeyError(c))
      else if !Defined(cells[c]) then r == ColumnMessages(cells, cols[i + 1..], proto, id)
      else r == Prepend([MessageOfFact(id, ColumnFact(proto, cells, c))], ColumnMessages(cells, cols[i + 1..], proto, id + 1))
  {
    assert cols[i..][0] == cols[i] && cols[i..][1..] == cols[i + 1..];
  }

  lemma NoColumnMessages(cells: map<string, Value>, proto: Fact, id: nat)
    ensures ColumnMessages(cells, [], proto, id) == Ok([])
  {
  }

  /** Prepending twice is prepending the concatenation. */
  lemma PrependTwice(a: seq<Message>, b: seq<Message>, r: Result<seq<Message>>)
    ensures Prepend(a, Prepend(b, r)) == Prepend(a + b, r)
  {
    if r.Ok? {
      assert a + (b + r.value) == (a + b) + r.value;
    }
  }

  /** The generator's `run`: the pools, the value columns, the messages of every core and expanded
      row, and the previous-location messages when a previous location is given (those come from a run
      of the whole pipeline and are a parameter here). */
  method Run(frame: Frame, q: string, expand: bool, previousLocation: Option<string>, previous: seq<Message>,
             ignored: Option<seq<string>>, now: int, firstId: nat, env: Env)
    returns (r: Result<(seq<Message>, seq<Message>, seq<Message>)>)
    ensures r.Ok? <==> Generate(frame, q, expand, ignored, now, firstId, env).Ok?
    ensures r.Ok? ==> (r.value.0, r.value.1) == Generate(frame, q, expand, ignored, now, firstId, env).value
    ensures r.Ok? ==> r.value.2 == (if previousLocation.Some? && previousLocation.value != "" then previous else [])
  {
    hide RowMessages, FrameMessages, SplitPools, ValueColumns;
    var pools := SplitPools(frame.rows, q, expand);
    var cols := ValueColumns(frame.columns, if ignored.Some? then ignored.value else []);
    var core := GenAll(pools.core, cols, firstId, now, env);
    if core.Err? {
      return Err(core.error);
    }
    var expanded: seq<Message> := [];
    if pools.expanded.Some? {
      var e := GenAll(pools.expanded.value, cols, firstId + |core.value|, now, env);
      if e.Err? {
        return Err(e.error);
      }
      expanded := e.value;
    }
    if core.value == [] {
      return Err(NoMessagesForSelection);
    }
    var prev := if previousLocation.Some? && previousLocation.value != "" then previous else [];
    return Ok((core.value, expanded, prev));
  }

  /** `frame.apply(_gen_messages, axis=1)` into a fresh list: the rows in order. */
  method GenAll(rows: seq<Row>, cols: seq<string>, firstId: nat, now: int, env: Env) returns (r: Result<seq<Message>>)
    ensures r == FrameMessages(rows, cols, firstId, now, env)
  {
    hide RowMessages;
    var out: seq<Message> := [];
    var i := 0;
    assert rows[0..] == rows;
    PrependNil(FrameMessages(rows, cols, firstId, now, env));
    while i < |rows|
      invariant 0 <= i <= |rows|
      invariant FrameMessages(rows, cols, firstId, now, env) == Prepend(out, FrameMessages(rows[i..], cols, firstId + |out|, now, env))
    {
      FrameStep(rows, i, cols, firstId + |out|, now, env);
      var next := GenMessages(rows[i], cols, out, firstId + |out|, now, env);
      if next.Err? {
        return Err(next.error);
      }
      var first := RowMessages(rows[i], cols, firstId + |out|, now, env).value;
      PrependTwice(out, first, FrameMessages(rows[i + 1..], cols, firstId + |out| + |first|, now, env));
      out := next.value;
      i := i + 1;
    }
    assert rows[i..] == [];
    assert out + [] == out;
    return Ok(out);
  }

  /** One round of `FrameMessages` from row i. */
  lemma FrameStep(rows: seq<Row>, i: nat, cols: seq<string>, id: nat, now: int, env: Env)
    requires i < |rows|
    ensures var first := RowMessages(rows[i], cols, id, now, env);
      FrameMessages(rows[i..], cols, id, now, env) ==
        if first.Err? then Err(first.error)
        else Prepend(first.value, FrameMessages(rows[i + 1..], cols, id + |first.value|, now, env))
  {
    hide RowMessages;
    assert rows[i..][0] == rows[i] && rows[i..][1..] == rows[i + 1..];
  }

  lemma PrependNil(r: Result<seq<Message>>)
    ensures Prepend([], r) == r
  {
    if r.Ok? {
      assert [] + r.value == r.value;
    }
  }
}
