// What a command line means to a parser with greedy multi-value options, and when argv
// normalisation keeps that meaning.
module ArgvMeaning {
  import opened Prelude
  import opened Argv

  // What the parser sees, in order. Values of negative-tolerant options carry the option's
  // canonical name; every other token and short flag is an event of its own.
  datatype Event =
    | Token(token: OsString)
    | Value(name: OsString, value: OsString)
    | Bare(name: OsString)
    | Flag(short: Unit)
    | ShortValue(short: Unit, value: OsString)
    | OpenShort(short: Unit)
    | Unknown(shorts: OsString)
    | Rest(tokens: seq<OsString>)

  // One token read on its own; `open` names a negative-tolerant option still without a value.
  datatype Reading = Reading(events: seq<Event>, open: Option<OsString>) {
    function After(e: Event): Reading {
      Reading([e] + events, open)
    }

    // The events when no value follows.
    function Closed(): seq<Event> {
      events + if open.Some? then [Bare(open.value)] else []
    }
  }

  function StripEquals(s: OsString): OsString {
    if s != [] && s[0] == EQUALS then s[1..] else s
  }

  // A short cluster: shorts that take no value are flags, and the first one that takes a
  // value takes the rest of the cluster.
  function ReadCluster(sp: Spellings, takers: set<Unit>, shorts: OsString): Reading
    decreases |shorts|
  {
    if shorts == [] then Reading([], None)
    else
      var c, rest := shorts[0], shorts[1..];
      if c !in sp.allShorts then Reading([Unknown(shorts)], None)
      else if c in sp.negativeShorts then
        if rest == [] then Reading([], Some(sp.negativeShorts[c]))
        else Reading([Value(sp.negativeShorts[c], StripEquals(rest))], None)
      else if c in takers then
        Reading([if rest == [] then OpenShort(c) else ShortValue(c, StripEquals(rest))], None)
      else ReadCluster(sp, takers, rest).After(Flag(c))
  }

  // A long option, split at its first `=`.
  function SplitEquals(s: OsString): (OsString, Option<OsString>) {
    if s == [] then ([], None)
    else if s[0] == EQUALS then ([], Some(s[1..]))
    else
      var (name, value) := SplitEquals(s[1..]);
      ([s[0]] + name, value)
  }

  function ReadLong(sp: Spellings, token: OsString): Reading
    requires StartsDoubleDash(token)
  {
    var (name, value) := SplitEquals(token[2..]);
    if name !in sp.negativeLongs then Reading([Token(token)], None)
    else if value.None? then Reading([], Some(sp.negativeLongs[name]))
    else Reading([Value(sp.negativeLongs[name], value.value)], None)
  }

  function ReadToken(sp: Spellings, takers: set<Unit>, token: OsString): Reading {
    if StartsDoubleDash(token) then ReadLong(sp, token)
    else if StartsDash(token) && |token| > 1 then ReadCluster(sp, takers, token[1..])
    else Reading([Token(token)], None)
  }

  function ValueEvents(name: OsString, values: seq<OsString>): seq<Event> {
    if values == [] then [] else [Value(name, values[0])] + ValueEvents(name, values[1..])
  }

  function OpenEvents(name: OsString, values: seq<OsString>): seq<Event> {
    if values == [] then [Bare(name)] else ValueEvents(name, values)
  }

  // Reads a whole token list. A greedy reader gives an open negative-tolerant option every
  // value that follows; the other one takes attached values only.
  function Read(sp: Spellings, takers: set<Unit>, greedy: bool, tokens: seq<OsString>): seq<Event>
    decreases |tokens|
  {
    if tokens == [] then []
    else if tokens[0] == DOUBLE_DASH then [Rest(tokens)]
    else
      var r := ReadToken(sp, takers, tokens[0]);
      var values := if greedy && r.open.Some? then Values(tokens[1..]) else [];
      r.events + (if r.open.Some? then OpenEvents(r.open.value, values) else [])
      + Read(sp, takers, greedy, tokens[1..][|values|..])
  }

  // --- reading single tokens ---

  predicate TakesValue(sp: Spellings, takers: set<Unit>, short: Unit) {
    short in sp.negativeShorts || short in takers
  }

  predicate LeadingIsFlags(sp: Spellings, takers: set<Unit>, leading: OsString) {
    forall u | u in leading :: !TakesValue(sp, takers, u)
  }

  function Flags(leading: OsString): seq<Event> {
    if leading == [] then [] else [Flag(leading[0])] + Flags(leading[1..])
  }

  predicate Known(sp: Spellings, shorts: OsString) {
    forall u | u in shorts :: u in sp.allShorts
  }

  lemma {:induction false} ReadFlags(sp: Spellings, takers: set<Unit>, leading: OsString)
    requires Known(sp, leading) && LeadingIsFlags(sp, takers, leading)
    ensures ReadCluster(sp, takers, leading) == Reading(Flags(leading), None)
  {
    if leading == [] {
    } else {
      ReadFlags(sp, takers, leading[1..]);
    }
  }

  lemma {:induction false} ReadFlagsThenOption(sp: Spellings, takers: set<Unit>, leading: OsString, last: Unit)
    requires Known(sp, leading) && LeadingIsFlags(sp, takers, leading)
    requires last in sp.allShorts && last in sp.negativeShorts
    ensures ReadCluster(sp, takers, leading + [last]) == Reading(Flags(leading), Some(sp.negativeShorts[last]))
  {
    if leading == [] {
    } else {
      assert (leading + [last])[0] == leading[0] && (leading + [last])[1..] == leading[1..] + [last];
      ReadFlagsThenOption(sp, takers, leading[1..], last);
    }
  }

  // Cutting the last short off a cluster in which an earlier short takes a value changes
  // what that earlier short is given.
  lemma {:induction false} CutClusterDiffers(sp: Spellings, takers: set<Unit>, leading: OsString, last: Unit)
    requires Known(sp, leading) && !LeadingIsFlags(sp, takers, leading)
    ensures var whole, cut := ReadCluster(sp, takers, leading + [last]), ReadCluster(sp, takers, leading);
            whole.open.None? && |whole.events| == |cut.Closed()| && whole.events != cut.Closed()
  {
    assert (leading + [last])[0] == leading[0] && (leading + [last])[1..] == leading[1..] + [last];
    var whole, cut := ReadCluster(sp, takers, leading + [last]), ReadCluster(sp, takers, leading);
    if TakesValue(sp, takers, leading[0]) {
      assert |StripEquals(leading[1..] + [last])| != |StripEquals(leading[1..])| || leading[1..] == [];
      assert whole.events[0] != cut.Closed()[0];
    } else {
      CutClusterDiffers(sp, takers, leading[1..], last);
      var whole', cut' := ReadCluster(sp, takers, leading[1..] + [last]), ReadCluster(sp, takers, leading[1..]);
      assert whole == whole'.After(Flag(leading[0])) && cut == cut'.After(Flag(leading[0]));
      assert cut.Closed() == [Flag(leading[0])] + cut'.Closed();
      assert whole.events[1..] == whole'.events && cut.Closed()[1..] == cut'.Closed();
    }
  }

  lemma {:induction false} SplitWhole(name: OsString)
    requires EQUALS !in name
    ensures SplitEquals(name) == (name, None)
  {
    if name == [] {
    } else {
      SplitWhole(name[1..]);
      assert [name[0]] + name[1..] == name;
    }
  }

  lemma {:induction false} SplitAttached(name: OsString, value: OsString)
    requires EQUALS !in name
    ensures SplitEquals(name + [EQUALS] + value) == (name, Some(value))
  {
    var s := name + [EQUALS] + value;
    if name == [] {
      assert s[0] == EQUALS && s[1..] == value;
    } else {
      assert s[0] == name[0] && s[1..] == name[1..] + [EQUALS] + value;
      SplitAttached(name[1..], value);
      assert [name[0]] + name[1..] == name;
    }
  }

  lemma ReadAttached(sp: Spellings, takers: set<Unit>, name: OsString, value: OsString)
    requires WellFormed(sp) && IsCanonical(sp, name)
    ensures Attached(name, value) != DOUBLE_DASH
    ensures ReadToken(sp, takers, Attached(name, value)) == Reading([Value(name, value)], None)
  {
    var token := Attached(name, value);
    assert token[2..] == name + [EQUALS] + value;
    SplitAttached(name, value);
    assert |token| > 2;
  }

  lemma ReadBare(sp: Spellings, takers: set<Unit>, name: OsString)
    requires WellFormed(sp) && name in sp.negativeLongs
    ensures Long(name) != DOUBLE_DASH
    ensures ReadToken(sp, takers, Long(name)) == Reading([], Some(sp.negativeLongs[name]))
  {
    assert Long(name)[2..] == name;
    SplitWhole(name);
    assert |Long(name)| > 2;
  }

  // --- the two readings of one head ---

  lemma {:induction false} SplitWithoutEquals(s: OsString)
    ensures SplitEquals(s).1.None? ==> SplitEquals(s).0 == s
  {
    if s == [] || s[0] == EQUALS {
    } else {
      SplitWithoutEquals(s[1..]);
      assert [s[0]] + s[1..] == s;
    }
  }

  lemma {:induction false} OpenCluster(sp: Spellings, takers: set<Unit>, shorts: OsString)
    requires ReadCluster(sp, takers, shorts).open.Some?
    ensures Known(sp, shorts) && shorts != [] && shorts[|shorts| - 1] in sp.negativeShorts
  {
    var c, rest := shorts[0], shorts[1..];
    if c !in sp.negativeShorts {
      assert ReadCluster(sp, takers, shorts) == ReadCluster(sp, takers, rest).After(Flag(c));
      OpenCluster(sp, takers, rest);
      assert forall u | u in shorts :: u == c || u in rest;
    } else {
      assert rest == [];
    }
  }

  lemma OpenIsOption(sp: Spellings, takers: set<Unit>, token: OsString)
    requires WellFormed(sp) && ReadToken(sp, takers, token).open.Some?
    ensures IsText(token) && NegativeOption(sp, token).Some?
  {
    if StartsDoubleDash(token) {
      SplitWithoutEquals(token[2..]);
      assert token == [token[0], token[1]] + token[2..];
    } else {
      OpenCluster(sp, takers, token[1..]);
      assert token == [DASH] + token[1..];
      assert token[1..|token| - 1] == token[1..][..|token| - 2];
    }
  }

  // A token that normalisation passes through leaves no option open.
  lemma PassIsClosed(sp: Spellings, takers: set<Unit>, tokens: seq<OsString>)
    requires WellFormed(sp) && HeadOf(sp, tokens) == PassOne
    ensures tokens[0] != DOUBLE_DASH && ReadToken(sp, takers, tokens[0]).open.None?
  {
    assert IsText(DOUBLE_DASH);
    if ReadToken(sp, takers, tokens[0]).open.Some? {
      OpenIsOption(sp, takers, tokens[0]);
    }
  }

  lemma OptionNames(sp: Spellings, tokens: seq<OsString>, o: Occurrence)
    requires WellFormed(sp) && HeadOf(sp, tokens) == Head.Option(o)
    ensures IsCanonical(sp, o.canonical) && Known(sp, o.leading) && tokens[0] != DOUBLE_DASH
    ensures o.leading != [] ==> [DASH] + o.leading != DOUBLE_DASH && !StartsDoubleDash([DASH] + o.leading)
  {
    if o.leading != [] {
      assert ([DASH] + o.leading)[1] == o.leading[0] && o.leading[0] in o.leading;
    }
  }

  lemma ReadOption(sp: Spellings, takers: set<Unit>, tokens: seq<OsString>, o: Occurrence)
    requires WellFormed(sp) && HeadOf(sp, tokens) == Head.Option(o) && LeadingIsFlags(sp, takers, o.leading)
    ensures ReadToken(sp, takers, tokens[0]) == Reading(Flags(o.leading), Some(o.canonical))
  {
    var token := tokens[0];
    if StartsDoubleDash(token) {
      SplitWhole(token[2..]);
    } else {
      assert token[1..] == o.leading + [token[|token| - 1]];
      ReadFlagsThenOption(sp, takers, o.leading, token[|token| - 1]);
    }
  }

  lemma MisreadOption(sp: Spellings, takers: set<Unit>, tokens: seq<OsString>, o: Occurrence)
    requires WellFormed(sp) && HeadOf(sp, tokens) == Head.Option(o) && !LeadingIsFlags(sp, takers, o.leading)
    ensures var whole, cut := ReadToken(sp, takers, tokens[0]), ReadToken(sp, takers, [DASH] + o.leading);
            whole.open.None? && |whole.events| == |cut.Closed()| && whole.events != cut.Closed()
  {
    OptionNames(sp, tokens, o);
    var token := tokens[0];
    assert o.leading != [];
    assert token[1..] == o.leading + [token[|token| - 1]];
    assert ([DASH] + o.leading)[1..] == o.leading;
    CutClusterDiffers(sp, takers, o.leading, token[|token| - 1]);
  }

  // --- reading token lists ---

  lemma ReadClosed(sp: Spellings, takers: set<Unit>, greedy: bool, token: OsString, rest: seq<OsString>)
    requires token != DOUBLE_DASH && (greedy ==> ReadToken(sp, takers, token).open.None?)
    ensures Read(sp, takers, greedy, [token] + rest) ==
            ReadToken(sp, takers, token).Closed() + Read(sp, takers, greedy, rest)
  {
    assert ([token] + rest)[1..] == rest;
    assert rest[0..] == rest;
  }

  lemma {:induction false} ReadAttachAll(sp: Spellings, takers: set<Unit>, name: OsString, values: seq<OsString>,
                                         more: seq<OsString>)
    requires WellFormed(sp) && IsCanonical(sp, name)
    ensures Read(sp, takers, false, AttachAll(name, values) + more) ==
            ValueEvents(name, values) + Read(sp, takers, false, more)
    decreases |values|
  {
    if values == [] {
      assert AttachAll(name, values) + more == more;
    } else {
      var rest := AttachAll(name, values[1..]) + more;
      assert AttachAll(name, values) + more == [Attached(name, values[0])] + rest;
      ReadAttached(sp, takers, name, values[0]);
      ReadClosed(sp, takers, false, Attached(name, values[0]), rest);
      ReadAttachAll(sp, takers, name, values[1..], more);
    }
  }

  lemma ReadBody(sp: Spellings, takers: set<Unit>, o: Occurrence, values: seq<OsString>, more: seq<OsString>)
    requires WellFormed(sp) && IsCanonical(sp, o.canonical)
    ensures Read(sp, takers, false, Body(o, values) + more) ==
            OpenEvents(o.canonical, values) + Read(sp, takers, false, more)
  {
    if values == [] {
      ReadBare(sp, takers, o.canonical);
      ReadClosed(sp, takers, false, Long(o.canonical), more);
    } else {
      ReadAttachAll(sp, takers, o.canonical, values, more);
    }
  }

  // The events of the leading shorts, re-emitted as a token of their own.
  function LeadEvents(sp: Spellings, takers: set<Unit>, o: Occurrence): seq<Event> {
    if o.leading == [] then [] else ReadToken(sp, takers, [DASH] + o.leading).Closed()
  }

  lemma ReadLead(sp: Spellings, takers: set<Unit>, o: Occurrence, rest: seq<OsString>)
    requires o.leading != [] ==> [DASH] + o.leading != DOUBLE_DASH
    ensures Read(sp, takers, false, Lead(o) + rest) == LeadEvents(sp, takers, o) + Read(sp, takers, false, rest)
  {
    if o.leading == [] {
      assert Lead(o) + rest == rest;
    } else {
      ReadClosed(sp, takers, false, [DASH] + o.leading, rest);
    }
  }

  // What the rewritten form of one occurrence reads as.
  lemma ReadRewritten(sp: Spellings, takers: set<Unit>, tokens: seq<OsString>, o: Occurrence)
    requires WellFormed(sp) && HeadOf(sp, tokens) == Head.Option(o)
    ensures Read(sp, takers, false, Rewrite(sp, tokens)) ==
            LeadEvents(sp, takers, o) + (OpenEvents(o.canonical, Values(tokens[1..]))
                                         + Read(sp, takers, false, Rewrite(sp, After(tokens))))
  {
    OptionNames(sp, tokens, o);
    var body, more := Body(o, Values(tokens[1..])), Rewrite(sp, After(tokens));
    ReadBody(sp, takers, o, Values(tokens[1..]), more);
    ReadLead(sp, takers, o, body + more);
    assert Lead(o) + body + more == Lead(o) + (body + more);
  }

  // Every rewritten cluster has only valueless flags before its last short.
  predicate ClustersClean(sp: Spellings, takers: set<Unit>, tokens: seq<OsString>)
    decreases |tokens|
  {
    match HeadOf(sp, tokens)
    case Nothing => true
    case Verbatim => true
    case PassOne => ClustersClean(sp, takers, tokens[1..])
    case Option(o) => LeadingIsFlags(sp, takers, o.leading) && ClustersClean(sp, takers, After(tokens))
  }

  lemma SamePrefix<T>(a: seq<T>, b: seq<T>, x: seq<T>, y: seq<T>)
    requires |a| == |b|
    ensures a + x == b + y <==> a == b && x == y
  {
    assert (a + x)[..|a|] == a && (b + y)[..|b|] == b;
    assert (a + x)[|a|..] == x && (b + y)[|b|..] == y;
  }

  lemma FlagsOfLead(sp: Spellings, takers: set<Unit>, o: Occurrence)
    requires Known(sp, o.leading) && LeadingIsFlags(sp, takers, o.leading)
    requires o.leading != [] ==> !StartsDoubleDash([DASH] + o.leading)
    ensures LeadEvents(sp, takers, o) == Flags(o.leading)
  {
    if o.leading != [] {
      assert ([DASH] + o.leading)[1..] == o.leading;
      ReadFlags(sp, takers, o.leading);
    }
  }

  lemma ReadOccurrence(sp: Spellings, takers: set<Unit>, tokens: seq<OsString>, o: Occurrence)
    requires WellFormed(sp) && HeadOf(sp, tokens) == Head.Option(o) && LeadingIsFlags(sp, takers, o.leading)
    ensures Read(sp, takers, true, tokens) ==
            Flags(o.leading) + (OpenEvents(o.canonical, Values(tokens[1..])) + Read(sp, takers, true, After(tokens)))
  {
    OptionNames(sp, tokens, o);
    ReadOption(sp, takers, tokens, o);
  }

  lemma DifferentHeads<T>(head: seq<T>, tail: seq<T>, head': seq<T>, tail': seq<T>)
    requires |head| == |head'| && head != head'
    ensures head + tail != head' + tail'
  {
    SamePrefix(head, head', tail, tail');
  }

  lemma SameHeads<T>(a: seq<T>, b: seq<T>, x: seq<T>, y: seq<T>)
    ensures a + (b + x) == a + (b + y) <==> x == y
  {
    SamePrefix(a, a, b + x, b + y);
    SamePrefix(b, b, x, y);
  }

  lemma KeptOption(sp: Spellings, takers: set<Unit>, tokens: seq<OsString>, o: Occurrence)
    requires WellFormed(sp) && HeadOf(sp, tokens) == Head.Option(o) && LeadingIsFlags(sp, takers, o.leading)
    ensures Read(sp, takers, false, Rewrite(sp, tokens)) == Read(sp, takers, true, tokens) <==>
            Read(sp, takers, false, Rewrite(sp, After(tokens))) == Read(sp, takers, true, After(tokens))
  {
    OptionNames(sp, tokens, o);
    ReadRewritten(sp, takers, tokens, o);
    ReadOccurrence(sp, takers, tokens, o);
    FlagsOfLead(sp, takers, o);
    SameHeads(Flags(o.leading), OpenEvents(o.canonical, Values(tokens[1..])),
              Read(sp, takers, false, Rewrite(sp, After(tokens))), Read(sp, takers, true, After(tokens)));
  }

  lemma ChangedOption(sp: Spellings, takers: set<Unit>, tokens: seq<OsString>, o: Occurrence)
    requires WellFormed(sp) && HeadOf(sp, tokens) == Head.Option(o) && !LeadingIsFlags(sp, takers, o.leading)
    ensures Read(sp, takers, false, Rewrite(sp, tokens)) != Read(sp, takers, true, tokens)
  {
    OptionNames(sp, tokens, o);
    MisreadOption(sp, takers, tokens, o);
    ReadRewritten(sp, takers, tokens, o);
    assert tokens == [tokens[0]] + tokens[1..];
    ReadClosed(sp, takers, true, tokens[0], tokens[1..]);
    DifferentHeads(LeadEvents(sp, takers, o),
                   OpenEvents(o.canonical, Values(tokens[1..])) + Read(sp, takers, false, Rewrite(sp, After(tokens))),
                   ReadToken(sp, takers, tokens[0]).Closed(), Read(sp, takers, true, tokens[1..]));
  }

  // A reader that takes attached values only sees in the rewritten tokens exactly what a
  // greedy reader sees in the original ones, if and only if no rewritten cluster has a
  // value-taking short before its last.
  lemma {:induction false} RewriteKeepsMeaningIff(sp: Spellings, takers: set<Unit>, tokens: seq<OsString>)
    requires WellFormed(sp)
    ensures Read(sp, takers, false, Rewrite(sp, tokens)) == Read(sp, takers, true, tokens) <==>
            ClustersClean(sp, takers, tokens)
    decreases |tokens|
  {
    match HeadOf(sp, tokens)
    case Nothing =>
    case Verbatim =>
    case PassOne =>
      var token, rest := tokens[0], tokens[1..];
      PassIsClosed(sp, takers, tokens);
      assert tokens == [token] + rest;
      ReadClosed(sp, takers, true, token, rest);
      ReadClosed(sp, takers, false, token, Rewrite(sp, rest));
      RewriteKeepsMeaningIff(sp, takers, rest);
      SamePrefix(ReadToken(sp, takers, token).Closed(), ReadToken(sp, takers, token).Closed(),
                 Read(sp, takers, false, Rewrite(sp, rest)), Read(sp, takers, true, rest));
    case Option(o) =>
      if LeadingIsFlags(sp, takers, o.leading) {
        KeptOption(sp, takers, tokens, o);
      } else {
        ChangedOption(sp, takers, tokens, o);
      }
      RewriteKeepsMeaningIff(sp, takers, After(tokens));
  }

  // The same for a whole command line: the program name stays, and the rest keeps its meaning
  // exactly when its clusters are clean.
  lemma NormalizationKeepsMeaningIff(sp: Spellings, takers: set<Unit>, argv: seq<OsString>)
    requires WellFormed(sp) && argv != []
    ensures Normalized(sp, argv) != [] && Normalized(sp, argv)[0] == argv[0]
    ensures Read(sp, takers, false, Normalized(sp, argv)[1..]) == Read(sp, takers, true, argv[1..]) <==>
            ClustersClean(sp, takers, argv[1..])
  {
    assert Normalized(sp, argv)[1..] == Rewrite(sp, argv[1..]);
    RewriteKeepsMeaningIff(sp, takers, argv[1..]);
  }

  // `-ob`: a value-taking short `o` in front of a negative-tolerant one `b`. The parser gives
  // `b` to `o`; the rewritten line leaves `o` open and adds an occurrence of the other option.
  lemma ClusterLosesItsValue(sp: Spellings, takers: set<Unit>, o: Unit, b: Unit)
    requires WellFormed(sp) && o in sp.allShorts && b in sp.negativeShorts && TakesValue(sp, takers, o)
    ensures var tokens := [[DASH, o, b]];
            Read(sp, takers, false, Rewrite(sp, tokens)) != Read(sp, takers, true, tokens)
  {
    var tokens := [[DASH, o, b]];
    var occurrence := Occurrence([o], sp.negativeShorts[b]);
    assert tokens[0][1..2] == [o];
    assert HeadOf(sp, tokens) == Head.Option(occurrence);
    assert o in occurrence.leading;
    RewriteKeepsMeaningIff(sp, takers, tokens);
  }
}
