// The decoded columns of raw logs: each parameter of the event has the value of its own log, in the
// order of the rows.
module LogDecoding {
  import opened Prelude
  import opened RpcParams
  import opened Columns
  import opened LogDatasets

  // A parameter of the event, by its position.
  datatype Param = Indexed(k: nat) | InBody(k: nat)

  predicate IsParam(d: Decoder, param: Param) {
    match param
    case Indexed(k) => k < |d.indexedNames|
    case InBody(k) => k < |d.bodyNames|
  }

  function NameOf(d: Decoder, param: Param): string
    requires IsParam(d, param)
  {
    match param
    case Indexed(k) => d.indexedNames[k]
    case InBody(k) => d.bodyNames[k]
  }

  // No other parameter has its name.
  predicate HasOwnName(d: Decoder, param: Param)
    requires IsParam(d, param)
  {
    var name := NameOf(d, param);
    && (forall j | 0 <= j < |d.indexedNames| && param != Indexed(j) :: d.indexedNames[j] != name)
    && (forall j | 0 <= j < |d.bodyNames| && param != InBody(j) :: d.bodyNames[j] != name)
  }

  predicate FitsDecoder(d: Decoder, values: (seq<Cell>, seq<Cell>)) {
    |values.0| == |d.indexedNames| && |values.1| == |d.bodyNames|
  }

  function ValueOf(d: Decoder, values: (seq<Cell>, seq<Cell>), param: Param): Cell
    requires IsParam(d, param) && FitsDecoder(d, values)
  {
    match param
    case Indexed(k) => values.0[k]
    case InBody(k) => values.1[k]
  }

  // --- one log ---

  lemma {:induction false} PushLeaves(events: Events, names: seq<string>, values: seq<Cell>, name: string)
    requires |names| == |values| && name !in names
    ensures PushEvents(events, names, values).error.None?
    ensures EventCol(PushEvents(events, names, values).state, name) == EventCol(events, name)
    decreases |names|
  {
    if names == [] {
    } else {
      var column := if names[0] in events then events[names[0]] else [];
      PushLeaves(events[names[0] := column + [values[0]]], names[1..], values[1..], name);
    }
  }

  lemma {:induction false} PushPuts(events: Events, names: seq<string>, values: seq<Cell>, k: nat)
    requires |names| == |values| && k < |names| && forall j | 0 <= j < |names| && j != k :: names[j] != names[k]
    ensures PushEvents(events, names, values).error.None?
    ensures EventCol(PushEvents(events, names, values).state, names[k]) == EventCol(events, names[k]) + [values[k]]
    decreases |names|
  {
    var column := if names[0] in events then events[names[0]] else [];
    var next := events[names[0] := column + [values[0]]];
    if k == 0 {
      assert names[0] !in names[1..] by {
        assert forall j | 0 <= j < |names[1..]| :: names[1..][j] == names[j + 1];
      }
      PushLeaves(next, names[1..], values[1..], names[0]);
    } else {
      PushPuts(next, names[1..], values[1..], k - 1);
    }
  }

  lemma DecodePuts(d: Decoder, events: Events, values: (seq<Cell>, seq<Cell>), param: Param)
    requires IsParam(d, param) && HasOwnName(d, param) && FitsDecoder(d, values)
    ensures var r := DecodeInto(d, events, values);
            r.error.None? &&
            EventCol(r.state, NameOf(d, param)) == EventCol(events, NameOf(d, param)) + [ValueOf(d, values, param)]
  {
    match param
    case Indexed(k) =>
      PushPuts(events, d.indexedNames, values.0, k);
      PushLeaves(PushEvents(events, d.indexedNames, values.0).state, d.bodyNames, values.1, d.indexedNames[k]);
    case InBody(k) =>
      PushLeaves(events, d.indexedNames, values.0, d.bodyNames[k]);
      PushPuts(PushEvents(events, d.indexedNames, values.0).state, d.bodyNames, values.1, k);
  }

  // --- a whole call ---

  predicate Decodes(s: LogSchema, log: Log) {
    s.decoder.Some? && s.decoder.value.decode(log).Some? &&
    FitsDecoder(s.decoder.value, s.decoder.value.decode(log).value)
  }

  // What the decoder says of one parameter of a log.
  function DecodedCell(s: LogSchema, log: Log, param: Param): Cell {
    if Decodes(s, log) && IsParam(s.decoder.value, param)
    then ValueOf(s.decoder.value, s.decoder.value.decode(log).value, param)
    else Null
  }

  lemma LogDecodes(s: LogSchema, f: Frame, log: Log, param: Param)
    requires s.decoder.Some? && DecoderFits(s) && IsParam(s.decoder.value, param) && HasOwnName(s.decoder.value, param)
    requires ProcessLog(Logs, s, f, log).error.None?
    ensures var name, g := NameOf(s.decoder.value, param), ProcessLog(Logs, s, f, log).state;
            if Stores(Logs, s, log)
            then Decodes(s, log) &&
                 EventCol(g.events, name) ==
                 EventCol(f.events, name) + [DecodedCell(s, log, param)]
            else EventCol(g.events, name) == EventCol(f.events, name)
  {
    if Stores(Logs, s, log) {
      DecodePuts(s.decoder.value, f.events, s.decoder.value.decode(log).value, param);
    }
  }

  // After a successful call on raw logs, the column of every parameter with a name of its own has
  // grown by one cell for each log that is stored, in the order of their rows, and each is what
  // the decoder says of that parameter of that log.
  lemma {:induction false} DecodedColumn(s: LogSchema, f: Frame, logs: seq<Log>, param: Param)
    requires s.decoder.Some? && DecoderFits(s) && IsParam(s.decoder.value, param) && HasOwnName(s.decoder.value, param)
    requires Process(Logs, s, f, logs).error.None?
    ensures var before := EventCol(f.events, NameOf(s.decoder.value, param));
            var after := EventCol(Process(Logs, s, f, logs).state.events, NameOf(s.decoder.value, param));
            var kept := Filter(Stored(Logs, s), logs);
            && |after| == |before| + |kept| && before <= after
            && forall i | 0 <= i < |kept| ::
                 Decodes(s, kept[i]) && after[|before| + i] == DecodedCell(s, kept[i], param)
    decreases |logs|
  {
    if logs == [] {
    } else {
      LogDecodes(s, f, logs[0], param);
      DecodedColumn(s, ProcessLog(Logs, s, f, logs[0]).state, logs[1..], param);
      if Stores(Logs, s, logs[0]) {
        assert Filter(Stored(Logs, s), logs) == [logs[0]] + Filter(Stored(Logs, s), logs[1..]);
      }
    }
  }
}
