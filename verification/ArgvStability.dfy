// When normalising a command line twice is the same as normalising it once.
module ArgvStability {
  import opened Prelude
  import opened Argv
  import opened ArgvMeaning

  // The rest is rewritten to tokens that start with an attached value that is not text.
  predicate StartsWithRawValue(sp: Spellings, rest: seq<OsString>) {
    match HeadOf(sp, rest)
    case Option(o) =>
      var values := Values(rest[1..]);
      o.leading == [] && values != [] && !IsText(values[0])
    case _ => false
  }

  // The re-emitted leading shorts are not themselves a negative-tolerant option.
  predicate LeadIsSettled(sp: Spellings, o: Occurrence) {
    o.leading == [] || o.leading[|o.leading| - 1] !in sp.negativeShorts
  }

  predicate Stable(sp: Spellings, tokens: seq<OsString>)
    decreases |tokens|
  {
    match HeadOf(sp, tokens)
    case Nothing => true
    case Verbatim => true
    case PassOne => Stable(sp, tokens[1..])
    case Option(o) =>
      && LeadIsSettled(sp, o)
      && (Values(tokens[1..]) == [] ==> !StartsWithRawValue(sp, After(tokens)))
      && Stable(sp, After(tokens))
  }

  // --- single tokens, rewritten again ---

  lemma PassFirst(sp: Spellings, token: OsString, rest: seq<OsString>)
    requires HeadOf(sp, [token] + rest) == PassOne
    ensures Rewrite(sp, [token] + rest) == [token] + Rewrite(sp, rest)
  {
    assert ([token] + rest)[1..] == rest;
  }

  lemma PassAhead(sp: Spellings, first: OsString, tail: seq<OsString>, more: seq<OsString>)
    requires HeadOf(sp, [first] + (tail + more)) == PassOne
    requires Rewrite(sp, tail + more) == tail + Rewrite(sp, more)
    ensures Rewrite(sp, [first] + tail + more) == [first] + tail + Rewrite(sp, more)
  {
    PassFirst(sp, first, tail + more);
    assert [first] + tail + more == [first] + (tail + more);
  }

  lemma AttachedPasses(sp: Spellings, name: OsString, value: OsString, rest: seq<OsString>)
    requires WellFormed(sp) && IsCanonical(sp, name)
    ensures HeadOf(sp, [Attached(name, value)] + rest) == PassOne
  {
    var token := Attached(name, value);
    assert token[2 + |name|] == EQUALS && |token| > 2;
    assert token[2..][|name|] == EQUALS;
    assert EQUALS in token[2..];
  }

  lemma {:induction false} AttachAllPasses(sp: Spellings, name: OsString, values: seq<OsString>, more: seq<OsString>)
    requires WellFormed(sp) && IsCanonical(sp, name)
    ensures Rewrite(sp, AttachAll(name, values) + more) == AttachAll(name, values) + Rewrite(sp, more)
    decreases |values|
  {
    if values == [] {
      assert AttachAll(name, values) + more == more;
    } else {
      var first, tail := Attached(name, values[0]), AttachAll(name, values[1..]);
      AttachAllPasses(sp, name, values[1..], more);
      AttachedPasses(sp, name, values[0], tail + more);
      PassAhead(sp, first, tail, more);
    }
  }

  lemma BareIsOption(sp: Spellings, name: OsString, rest: seq<OsString>)
    requires WellFormed(sp) && IsCanonical(sp, name)
    ensures HeadOf(sp, [Long(name)] + rest) == Head.Option(Occurrence([], name))
  {
    assert Long(name)[2..] == name && |Long(name)| > 2;
  }

  lemma BareRewritten(sp: Spellings, name: OsString, rest: seq<OsString>)
    requires WellFormed(sp) && IsCanonical(sp, name)
    ensures Rewrite(sp, [Long(name)] + rest) ==
            Body(Occurrence([], name), Values(rest)) + Rewrite(sp, rest[|Values(rest)|..])
  {
    BareIsOption(sp, name, rest);
    assert ([Long(name)] + rest)[1..] == rest;
  }

  // A bare option survives a second pass if and only if no value follows it.
  lemma BareSurvivesIff(sp: Spellings, name: OsString, rest: seq<OsString>)
    requires WellFormed(sp) && IsCanonical(sp, name)
    ensures Values(rest) == [] ==> Rewrite(sp, [Long(name)] + rest) == [Long(name)] + Rewrite(sp, rest)
    ensures Values(rest) != [] ==> Rewrite(sp, [Long(name)] + rest)[..1] != [Long(name)]
  {
    BareRewritten(sp, name, rest);
    if Values(rest) == [] {
      assert rest[0..] == rest;
    } else {
      assert Rewrite(sp, [Long(name)] + rest)[0] == Attached(name, Values(rest)[0]);
      assert |Attached(name, Values(rest)[0])| > |Long(name)|;
    }
  }

  // The leading shorts survive a second pass if and only if they are settled.
  lemma LeadSurvivesIff(sp: Spellings, o: Occurrence, rest: seq<OsString>)
    requires WellFormed(sp) && Known(sp, o.leading)
    ensures LeadIsSettled(sp, o) ==> Rewrite(sp, Lead(o) + rest) == Lead(o) + Rewrite(sp, rest)
    ensures !LeadIsSettled(sp, o) ==> Rewrite(sp, Lead(o) + rest)[..1] != Lead(o)
  {
    if o.leading == [] {
      assert Lead(o) + rest == rest;
    } else {
      var token, k := [DASH] + o.leading, |o.leading| - 1;
      assert token[1] == o.leading[0] && o.leading[0] in o.leading && o.leading[k] in o.leading;
      assert IsText(token) && !StartsDoubleDash(token) && token != DOUBLE_DASH;
      assert token[|token| - 1] == o.leading[k] && token[1..|token| - 1] == o.leading[..k];
      var tokens := [token] + rest;
      assert tokens[1..] == rest;
      if LeadIsSettled(sp, o) {
        PassFirst(sp, token, rest);
      } else {
        var again := Occurrence(o.leading[..k], sp.negativeShorts[o.leading[k]]);
        assert HeadOf(sp, tokens) == Head.Option(again);
        ShorterFirst(sp, tokens, again, token);
      }
    }
  }

  lemma ShorterFirst(sp: Spellings, tokens: seq<OsString>, o: Occurrence, token: OsString)
    requires HeadOf(sp, tokens) == Head.Option(o) && !StartsDoubleDash(token) && |token| > |o.leading| + 1
    ensures Rewrite(sp, tokens)[..1] != [token]
  {
    var body := Body(o, Values(tokens[1..]));
    assert Rewrite(sp, tokens) == Lead(o) + body + Rewrite(sp, After(tokens));
    if o.leading == [] {
      assert StartsDoubleDash(body[0]) && Rewrite(sp, tokens)[0] == body[0];
    } else {
      assert Rewrite(sp, tokens)[0] == [DASH] + o.leading;
    }
  }

  // What stands where a flag stood is a flag again, unless it is an attached value that is not text.
  lemma FlagStaysFlagIff(sp: Spellings, rest: seq<OsString>)
    requires WellFormed(sp) && Values(rest) == []
    ensures Values(Rewrite(sp, rest)) == [] <==> !StartsWithRawValue(sp, rest)
  {
    match HeadOf(sp, rest)
    case Nothing =>
    case Verbatim =>
    case PassOne =>
    case Option(o) =>
      OptionNames(sp, rest, o);
      var values, out := Values(rest[1..]), Rewrite(sp, rest);
      assert out == Lead(o) + Body(o, values) + Rewrite(sp, After(rest));
      if o.leading != [] {
        assert out[0] == [DASH] + o.leading;
        LeadIsNoValue(sp, o);
      } else if values == [] {
        assert out[0] == Long(o.canonical);
      } else {
        assert out[0] == Attached(o.canonical, values[0]);
        AttachedIsText(o.canonical, values[0]);
      }
  }

  lemma LeadIsNoValue(sp: Spellings, o: Occurrence)
    requires WellFormed(sp) && Known(sp, o.leading) && o.leading != []
    ensures !IsValue([DASH] + o.leading)
  {
    var token := [DASH] + o.leading;
    assert token[1] == o.leading[0] && o.leading[0] in o.leading;
    assert forall u | u in token :: u == DASH || u in o.leading;
  }

  lemma AttachedIsText(name: OsString, value: OsString)
    requires IsText(name)
    ensures IsText(Attached(name, value)) <==> IsText(value)
    ensures IsValue(Attached(name, value)) <==> !IsText(value)
  {
    var token := Attached(name, value);
    assert forall u | u in value :: u in token;
    assert forall u | u in token :: u == DASH || u == EQUALS || u in name || u in value;
    assert token[0] == DASH && token[1] == DASH;
  }

  // --- whole token lists ---

  predicate Settled(sp: Spellings, tokens: seq<OsString>) {
    Rewrite(sp, tokens) == tokens
  }

  lemma BodySettledIff(sp: Spellings, o: Occurrence, values: seq<OsString>, more: seq<OsString>)
    requires WellFormed(sp) && IsCanonical(sp, o.canonical)
    ensures Settled(sp, Body(o, values) + more) <==> (values == [] ==> Values(more) == []) && Settled(sp, more)
  {
    if values == [] {
      BareSurvivesIff(sp, o.canonical, more);
      SamePrefix(Body(o, values), Body(o, values), Rewrite(sp, more), more);
      assert (Body(o, values) + more)[..1] == [Long(o.canonical)];
    } else {
      AttachAllPasses(sp, o.canonical, values, more);
      SamePrefix(Body(o, values), Body(o, values), Rewrite(sp, more), more);
    }
  }

  lemma LeadSettledIff(sp: Spellings, o: Occurrence, rest: seq<OsString>)
    requires WellFormed(sp) && Known(sp, o.leading)
    ensures Settled(sp, Lead(o) + rest) <==> LeadIsSettled(sp, o) && Settled(sp, rest)
  {
    LeadSurvivesIff(sp, o, rest);
    SamePrefix(Lead(o), Lead(o), Rewrite(sp, rest), rest);
    if !LeadIsSettled(sp, o) {
      assert (Lead(o) + rest)[..1] == Lead(o);
    }
  }

  // Rewriting the rewritten tokens changes nothing, if and only if the original tokens are stable.
  lemma {:induction false} RewriteIdempotentIff(sp: Spellings, tokens: seq<OsString>)
    requires WellFormed(sp)
    ensures Settled(sp, Rewrite(sp, tokens)) <==> Stable(sp, tokens)
    decreases |tokens|
  {
    match HeadOf(sp, tokens)
    case Nothing =>
    case Verbatim =>
    case PassOne =>
      var rest := Rewrite(sp, tokens[1..]);
      PassFirst(sp, tokens[0], rest);
      SamePrefix([tokens[0]], [tokens[0]], Rewrite(sp, rest), rest);
      RewriteIdempotentIff(sp, tokens[1..]);
    case Option(o) =>
      var values, more := Values(tokens[1..]), Rewrite(sp, After(tokens));
      OptionNames(sp, tokens, o);
      assert Rewrite(sp, tokens) == Lead(o) + (Body(o, values) + more);
      LeadSettledIff(sp, o, Body(o, values) + more);
      BodySettledIff(sp, o, values, more);
      if values == [] {
        assert After(tokens) == tokens[1..];
        FlagStaysFlagIff(sp, After(tokens));
      }
      RewriteIdempotentIff(sp, After(tokens));
  }

  lemma NormalizationIdempotentIff(sp: Spellings, argv: seq<OsString>)
    requires WellFormed(sp)
    ensures Normalized(sp, Normalized(sp, argv)) == Normalized(sp, argv) <==> argv == [] || Stable(sp, argv[1..])
  {
    if argv != [] {
      RewriteIdempotentIff(sp, argv[1..]);
      var once := Rewrite(sp, argv[1..]);
      assert Normalized(sp, argv)[1..] == once;
      SamePrefix([argv[0]], [argv[0]], Rewrite(sp, once), once);
    }
  }

  // `-bb`: the first pass leaves `-b`, which the second pass spells out.
  lemma DoubledShortIsNotStable(sp: Spellings, program: OsString, b: Unit)
    requires WellFormed(sp) && b in sp.negativeShorts
    ensures var once := Normalized(sp, [program, [DASH, b, b]]);
            Normalized(sp, once) != once
  {
    var argv := [program, [DASH, b, b]];
    var occurrence := Occurrence([b], sp.negativeShorts[b]);
    assert argv[1..][0][1..2] == [b];
    assert HeadOf(sp, argv[1..]) == Head.Option(occurrence);
    NormalizationIdempotentIff(sp, argv);
  }

  // A value that is not text is attached to the second of two options, and the result is itself
  // no text, so that the second pass takes it for a value of the first: `--a -b <raw>` becomes
  // `--a --b=<raw>` and then `--a=--b=<raw>`.
  lemma RawValueIsNotStable(sp: Spellings, program: OsString, a: OsString, b: Unit, raw: OsString)
    requires WellFormed(sp) && IsCanonical(sp, a) && b in sp.negativeShorts && !IsText(raw)
    ensures var name := sp.negativeShorts[b];
            var once := Normalized(sp, [program, Long(a), [DASH, b], raw]);
            && once == [program, Long(a), Attached(name, raw)]
            && Normalized(sp, once) == [program, Attached(a, Attached(name, raw))] != once
  {
    var name := sp.negativeShorts[b];
    RawOnce(sp, a, b, raw);
    RawTwice(sp, a, Attached(name, raw));
    AttachedIsText(name, raw);
    assert [program, Long(a), [DASH, b], raw][1..] == [Long(a), [DASH, b], raw];
    assert [program, Long(a), Attached(name, raw)][1..] == [Long(a), Attached(name, raw)];
  }

  lemma RawOnce(sp: Spellings, a: OsString, b: Unit, raw: OsString)
    requires WellFormed(sp) && IsCanonical(sp, a) && b in sp.negativeShorts && !IsText(raw)
    ensures Rewrite(sp, [Long(a), [DASH, b], raw]) == [Long(a), Attached(sp.negativeShorts[b], raw)]
  {
    var rest := [[DASH, b], raw];
    assert b in sp.allShorts && !IsValue([DASH, b]) && Values(rest) == [];
    RawValueAttached(sp, b, raw);
    BareRewritten(sp, a, rest);
    assert rest[0..] == rest && [Long(a), [DASH, b], raw] == [Long(a)] + rest;
  }

  lemma RawTwice(sp: Spellings, a: OsString, value: OsString)
    requires WellFormed(sp) && IsCanonical(sp, a) && !IsText(value)
    ensures Rewrite(sp, [Long(a), value]) == [Attached(a, value)]
  {
    OneValue(value);
    BareRewritten(sp, a, [value]);
    assert [Long(a), value] == [Long(a)] + [value];
    assert AttachAll(a, [value]) == [Attached(a, value)];
  }

  lemma OneValue(value: OsString)
    requires IsValue(value)
    ensures Values([value]) == [value] && [value][1..] == []
  {
    assert [value][1..] == [];
  }

  lemma RawValueAttached(sp: Spellings, b: Unit, raw: OsString)
    requires WellFormed(sp) && b in sp.negativeShorts && !IsText(raw)
    ensures Rewrite(sp, [[DASH, b], raw]) == [Attached(sp.negativeShorts[b], raw)]
  {
    var tokens, name := [[DASH, b], raw], sp.negativeShorts[b];
    assert b in sp.allShorts;
    assert tokens[0][1..1] == [] && tokens[1..] == [raw];
    assert HeadOf(sp, tokens) == Head.Option(Occurrence([], name));
    OneValue(raw);
    assert AttachAll(name, [raw]) == [Attached(name, raw)];
    assert After(tokens) == [];
  }
}
