// Argv normalisation: every value of a negative-tolerant option is rewritten into attached
// form, so that a value with a leading minus is never read as a flag.
module Argv {
  import opened Prelude
  import TraceAddress

  // One unit of an OS string: a character, or a byte that is not valid text.
  datatype Unit = Ch(c: char) | Raw(b: nat)
  type OsString = seq<Unit>

  const DASH: Unit := Ch('-')
  const EQUALS: Unit := Ch('=')
  const DOUBLE_DASH: OsString := [DASH, DASH]

  predicate IsText(token: OsString) {
    forall u | u in token :: u.Ch?
  }

  predicate IsDigit(u: Unit) {
    u.Ch? && '0' <= u.c <= '9'
  }

  predicate StartsDash(token: OsString) {
    |token| > 0 && token[0] == DASH
  }

  predicate StartsDoubleDash(token: OsString) {
    |token| > 1 && token[0] == DASH && token[1] == DASH
  }

  // --- spellings ---

  datatype Spellings = Spellings(
    negativeLongs: map<OsString, OsString>,
    negativeShorts: map<Unit, OsString>,
    allShorts: set<Unit>
  )

  predicate IsLongName(long: OsString) {
    long != [] && IsText(long) && EQUALS !in long
  }

  // What a command's spellings always satisfy: names are text without `=`, a canonical
  // name spells itself, and no short is a digit or a dash.
  predicate WellFormed(sp: Spellings) {
    && (forall long | long in sp.negativeLongs ::
          IsLongName(long) && IsCanonical(sp, sp.negativeLongs[long]))
    && (forall short | short in sp.negativeShorts :: short in sp.allShorts && IsCanonical(sp, sp.negativeShorts[short]))
    && (forall short | short in sp.allShorts :: short.Ch? && !IsDigit(short) && short != DASH)
  }

  predicate IsCanonical(sp: Spellings, name: OsString) {
    name in sp.negativeLongs && sp.negativeLongs[name] == name
  }

  datatype Arg = Arg(short: Option<Unit>, shortAliases: seq<Unit>, long: Option<OsString>, aliases: seq<OsString>,
                     negative: bool)

  function Shorts(a: Arg): seq<Unit> {
    (if a.short.Some? then [a.short.value] else []) + a.shortAliases
  }

  function Longs(a: Arg): seq<OsString> {
    (if a.long.Some? then [a.long.value] else []) + a.aliases
  }

  // A command in which every spelling is usable and belongs to one argument.
  predicate SaneCommand(args: seq<Arg>) {
    && (forall a, long | a in args && long in Longs(a) :: IsLongName(long))
    && (forall a, short | a in args && short in Shorts(a) :: short.Ch? && !IsDigit(short) && short != DASH)
    && (forall i, j | 0 <= i < j < |args| :: Apart(args[i], args[j]))
  }

  // The negative-tolerant arguments that can be rewritten: those with a long name.
  predicate Rewritable(a: Arg) {
    a.negative && a.long.Some?
  }

  predicate OwnsLong(a: Arg, long: OsString) {
    Rewritable(a) && long in Longs(a)
  }

  predicate OwnsShort(a: Arg, short: Unit) {
    Rewritable(a) && short in Shorts(a)
  }

  // The spellings say exactly what the arguments spell.
  ghost predicate Describes(sp: Spellings, args: seq<Arg>) {
    && (forall long | long in sp.negativeLongs :: exists a :: a in args && OwnsLong(a, long))
    && (forall short | short in sp.negativeShorts :: exists a :: a in args && OwnsShort(a, short))
    && (forall short | short in sp.allShorts :: exists a :: a in args && short in Shorts(a))
    && (forall a, long | a in args && OwnsLong(a, long) ::
          long in sp.negativeLongs && sp.negativeLongs[long] == a.long.value)
    && (forall a, short | a in args && OwnsShort(a, short) ::
          short in sp.negativeShorts && sp.negativeShorts[short] == a.long.value)
    && (forall a, short | a in args && short in Shorts(a) :: short in sp.allShorts)
  }

  // One turn of the loop: the spellings of one more argument.
  function AddArg(sp: Spellings, a: Arg): Spellings {
    var all := sp.allShorts + (set short | short in Shorts(a));
    if Rewritable(a) then
      Spellings(sp.negativeLongs + (map long | long in Longs(a) :: a.long.value),
                sp.negativeShorts + (map short | short in Shorts(a) :: a.long.value),
                all)
    else
      sp.(allShorts := all)
  }

  predicate Apart(a: Arg, b: Arg) {
    (forall long | long in Longs(a) :: long !in Longs(b)) && (forall short | short in Shorts(a) :: short !in Shorts(b))
  }

  lemma AddArgOwners(sp: Spellings, args: seq<Arg>, a: Arg, b: Arg)
    requires Describes(sp, args) && (b in args || b == a)
    requires b in args ==> Apart(b, a)
    ensures forall long | OwnsLong(b, long) ::
              long in AddArg(sp, a).negativeLongs && AddArg(sp, a).negativeLongs[long] == b.long.value
    ensures forall short | OwnsShort(b, short) ::
              short in AddArg(sp, a).negativeShorts && AddArg(sp, a).negativeShorts[short] == b.long.value
    ensures forall short | short in Shorts(b) :: short in AddArg(sp, a).allShorts
  {
  }

  lemma AddArgDescribes(sp: Spellings, args: seq<Arg>, a: Arg)
    requires Describes(sp, args)
    requires forall b | b in args :: Apart(b, a)
    ensures Describes(AddArg(sp, a), args + [a])
  {
    var r, more := AddArg(sp, a), args + [a];
    assert forall b | b in more :: b in args || b == a;
    assert a in more && forall b | b in args :: b in more;
    forall long | long in r.negativeLongs ensures exists b :: b in more && OwnsLong(b, long) {
      if long !in sp.negativeLongs { assert OwnsLong(a, long); }
    }
    forall short | short in r.negativeShorts ensures exists b :: b in more && OwnsShort(b, short) {
      if short !in sp.negativeShorts { assert OwnsShort(a, short); }
    }
    forall b | b in more
      ensures forall long | OwnsLong(b, long) :: long in r.negativeLongs && r.negativeLongs[long] == b.long.value
      ensures forall short | OwnsShort(b, short) ::
                short in r.negativeShorts && r.negativeShorts[short] == b.long.value
      ensures forall short | short in Shorts(b) :: short in r.allShorts
    {
      AddArgOwners(sp, args, a, b);
    }
  }

  lemma DescribedIsWellFormed(sp: Spellings, args: seq<Arg>)
    requires SaneCommand(args) && Describes(sp, args)
    ensures WellFormed(sp)
  {
    forall a | a in args && Rewritable(a) ensures IsCanonical(sp, a.long.value) {
      assert Longs(a)[0] == a.long.value;
      assert OwnsLong(a, a.long.value);
    }
  }

  method FromCommand(args: seq<Arg>) returns (sp: Spellings)
    requires SaneCommand(args)
    ensures Describes(sp, args) && WellFormed(sp)
  {
    sp := Spellings(map[], map[], {});
    for i := 0 to |args|
      invariant Describes(sp, args[..i])
    {
      var a := args[i];
      ghost var before := sp;
      sp := sp.(allShorts := sp.allShorts + (set short | short in Shorts(a)));
      if a.negative && a.long.Some? {
        var canonical := a.long.value;
        sp := sp.(negativeLongs := sp.negativeLongs + (map long | long in Longs(a) :: canonical),
                  negativeShorts := sp.negativeShorts + (map short | short in Shorts(a) :: canonical));
      }
      assert sp == AddArg(before, a);
      AddArgDescribes(before, args[..i], a);
      assert args[..i + 1] == args[..i] + [a];
    }
    assert args[..|args|] == args;
    DescribedIsWellFormed(sp, args);
  }

  datatype Occurrence = Occurrence(leading: OsString, canonical: OsString)

  // The occurrence that a token names, when it is a negative-tolerant option in its own
  // right: a long spelling, a short one, or a cluster that ends in one.
  function NegativeOption(sp: Spellings, token: OsString): Option<Occurrence> {
    if StartsDoubleDash(token) then
      if token[2..] in sp.negativeLongs then Some(Occurrence([], sp.negativeLongs[token[2..]])) else None
    else if StartsDash(token) && |token| > 1 then
      var last, leading := token[|token| - 1], token[1..|token| - 1];
      if last in sp.negativeShorts && (forall u | u in leading :: u in sp.allShorts)
      then Some(Occurrence(leading, sp.negativeShorts[last]))
      else None
    else None
  }

  predicate IsValue(token: OsString) {
    !IsText(token) || !StartsDash(token) || |token| == 1 || IsDigit(token[1])
  }

  // --- the rewriting ---

  function Values(tokens: seq<OsString>): (v: seq<OsString>)
    ensures |v| <= |tokens|
  {
    if tokens == [] || !IsValue(tokens[0]) then [] else [tokens[0]] + Values(tokens[1..])
  }

  function Long(name: OsString): OsString {
    DOUBLE_DASH + name
  }

  function Attached(name: OsString, value: OsString): OsString {
    Long(name) + [EQUALS] + value
  }

  function AttachAll(name: OsString, values: seq<OsString>): seq<OsString> {
    if values == [] then [] else [Attached(name, values[0])] + AttachAll(name, values[1..])
  }

  function Lead(o: Occurrence): seq<OsString> {
    if o.leading == [] then [] else [[DASH] + o.leading]
  }

  function Body(o: Occurrence, values: seq<OsString>): seq<OsString> {
    if values == [] then [Long(o.canonical)] else AttachAll(o.canonical, values)
  }

  // What stands at the head of a token list.
  datatype Head = Nothing | Verbatim | PassOne | Option(o: Occurrence)

  function HeadOf(sp: Spellings, tokens: seq<OsString>): Head {
    if tokens == [] then Nothing
    else if !IsText(tokens[0]) then PassOne
    else if tokens[0] == DOUBLE_DASH then Verbatim
    else match NegativeOption(sp, tokens[0])
      case None => PassOne
      case Some(o) => Head.Option(o)
  }

  // What is left after an occurrence and its values.
  function After(tokens: seq<OsString>): seq<OsString>
    requires tokens != []
  {
    tokens[1..][|Values(tokens[1..])|..]
  }

  // The tokens after the program name.
  function Rewrite(sp: Spellings, tokens: seq<OsString>): seq<OsString>
    decreases |tokens|
  {
    match HeadOf(sp, tokens)
    case Nothing => []
    case Verbatim => tokens
    case PassOne => [tokens[0]] + Rewrite(sp, tokens[1..])
    case Option(o) => Lead(o) + Body(o, Values(tokens[1..])) + Rewrite(sp, After(tokens))
  }

  function Normalized(sp: Spellings, argv: seq<OsString>): seq<OsString> {
    if argv == [] then [] else [argv[0]] + Rewrite(sp, argv[1..])
  }

  // Consumes the values at the head of a token list, attaching each one.
  method AttachValues(name: OsString, tokens: seq<OsString>) returns (out: seq<OsString>, attached: nat)
    ensures attached == |Values(tokens)| && out == AttachAll(name, Values(tokens))
  {
    out, attached := [], 0;
    while attached < |tokens| && IsValue(tokens[attached])
      invariant attached <= |tokens| && |Values(tokens)| == attached + |Values(tokens[attached..])|
      invariant AttachAll(name, Values(tokens)) == out + AttachAll(name, Values(tokens[attached..]))
    {
      AttachNext(name, tokens, attached);
      out := out + [Attached(name, tokens[attached])];
      attached := attached + 1;
    }
  }

  lemma AttachNext(name: OsString, tokens: seq<OsString>, i: nat)
    requires i < |tokens| && IsValue(tokens[i])
    ensures |Values(tokens[i..])| == 1 + |Values(tokens[i + 1..])|
    ensures AttachAll(name, Values(tokens[i..])) ==
            [Attached(name, tokens[i])] + AttachAll(name, Values(tokens[i + 1..]))
  {
    assert tokens[i..][1..] == tokens[i + 1..];
  }

  // The branch for an occurrence: its leading shorts, then its values or the bare option.
  method RewriteOccurrence(o: Occurrence, rest: seq<OsString>) returns (out: seq<OsString>, attached: nat)
    ensures attached == |Values(rest)| && out == Lead(o) + Body(o, Values(rest))
  {
    out := [];
    if o.leading != [] {
      out := out + [[DASH] + o.leading];
    }
    var values;
    values, attached := AttachValues(o.canonical, rest);
    out := out + values;
    if attached == 0 {
      out := out + [Long(o.canonical)];
    }
  }

  // One turn of the loop on a non-empty rest: what it emits, and how many tokens it consumes.
  method Turn(sp: Spellings, tokens: seq<OsString>) returns (out: seq<OsString>, consumed: nat)
    requires tokens != []
    ensures 0 < consumed <= |tokens| && Rewrite(sp, tokens) == out + Rewrite(sp, tokens[consumed..])
  {
    var token := tokens[0];
    if !IsText(token) {
      return [token], 1;
    }
    if token == DOUBLE_DASH {
      return tokens, |tokens|;
    }
    var occurrence := NegativeOption(sp, token);
    if occurrence.None? {
      return [token], 1;
    }
    var attached;
    out, attached := RewriteOccurrence(occurrence.value, tokens[1..]);
    consumed := 1 + attached;
    assert tokens[consumed..] == After(tokens);
  }

  lemma DashesEndValues(a: seq<OsString>, b: seq<OsString>)
    ensures Values(a + [DOUBLE_DASH] + b) == Values(a)
  {
    var all := a + [DOUBLE_DASH] + b;
    if a == [] {
      assert all[0] == DOUBLE_DASH && !IsValue(DOUBLE_DASH);
    } else {
      assert all[0] == a[0] && all[1..] == a[1..] + [DOUBLE_DASH] + b;
      DashesEndValues(a[1..], b);
    }
  }

  lemma DashesAfter(a: seq<OsString>, b: seq<OsString>)
    requires a != []
    ensures var all := a + [DOUBLE_DASH] + b;
            all[0] == a[0] && all[1..] == a[1..] + [DOUBLE_DASH] + b && After(all) == After(a) + [DOUBLE_DASH] + b
  {
    var all := a + [DOUBLE_DASH] + b;
    assert all[1..] == a[1..] + [DOUBLE_DASH] + b;
    DashesEndValues(a[1..], b);
  }

  lemma AheadOfDashes(front: seq<OsString>, back: seq<OsString>, b: seq<OsString>)
    ensures front + (back + [DOUBLE_DASH] + b) == front + back + [DOUBLE_DASH] + b
  {
  }

  // Everything from the first `--` on stays as it is, and has no effect on what stands before it.
  lemma {:induction false} RewriteBeforeDashes(sp: Spellings, a: seq<OsString>, b: seq<OsString>)
    requires DOUBLE_DASH !in a
    ensures Rewrite(sp, a + [DOUBLE_DASH] + b) == Rewrite(sp, a) + [DOUBLE_DASH] + b
    decreases |a|
  {
    var all := a + [DOUBLE_DASH] + b;
    if a == [] {
      assert all == [DOUBLE_DASH] + b && IsText(DOUBLE_DASH);
    } else {
      DashesAfter(a, b);
      assert HeadOf(sp, all) == HeadOf(sp, a);
      match HeadOf(sp, a)
      case PassOne =>
        RewriteBeforeDashes(sp, a[1..], b);
        AheadOfDashes([a[0]], Rewrite(sp, a[1..]), b);
      case Option(o) =>
        DashesEndValues(a[1..], b);
        RewriteBeforeDashes(sp, After(a), b);
        AheadOfDashes(Lead(o) + Body(o, Values(a[1..])), Rewrite(sp, After(a)), b);
    }
  }

  lemma DashesEndNormalization(sp: Spellings, program: OsString, a: seq<OsString>, b: seq<OsString>)
    requires DOUBLE_DASH !in a
    ensures Normalized(sp, [program] + a + [DOUBLE_DASH] + b) == Normalized(sp, [program] + a) + [DOUBLE_DASH] + b
  {
    var argv := [program] + a;
    assert (argv + [DOUBLE_DASH] + b)[1..] == a + [DOUBLE_DASH] + b && argv[1..] == a;
    RewriteBeforeDashes(sp, a, b);
  }

  method Normalize(sp: Spellings, argv: seq<OsString>) returns (out: seq<OsString>)
    ensures out == Normalized(sp, argv)
  {
    if argv == [] {
      return [];
    }
    out := [argv[0]];
    var rest := argv[1..];
    while rest != []
      invariant Normalized(sp, argv) == out + Rewrite(sp, rest)
      decreases |rest|
    {
      var emitted, consumed := Turn(sp, rest);
      out, rest := out + emitted, rest[consumed..];
    }
  }

  // --- numbers with a dash in front ---

  function TextOf(s: string): OsString {
    seq(|s|, i requires 0 <= i < |s| => Ch(s[i]))
  }

  // A dash, the decimal text of a number, and whatever follows.
  predicate IsMinus(token: OsString, n: nat, rest: OsString) {
    token == [DASH] + TextOf(TraceAddress.Decimal(n)) + rest
  }

  lemma MinusIsValue(token: OsString, n: nat, rest: OsString)
    requires IsMinus(token, n, rest)
    ensures IsValue(token)
  {
    var text := TraceAddress.Decimal(n);
    assert TraceAddress.IsDigit(text[0]) && token[1] == Ch(text[0]);
  }

  lemma DigitIsMinus(token: OsString)
    requires StartsDash(token) && |token| > 1 && IsDigit(token[1])
    ensures exists n: nat, rest: OsString :: IsMinus(token, n, rest)
  {
    var d := token[1].c as nat - '0' as nat;
    assert '0' + d as char == token[1].c && TraceAddress.Decimal(d) == [token[1].c];
    assert TextOf([token[1].c]) == [token[1]];
    assert IsMinus(token, d, token[2..]);
  }

  // The tokens that are values are those that are not text, those without a dash in front, a dash
  // alone, and a dash in front of the decimal text of any number, whatever follows it.
  lemma ValueIff(token: OsString)
    ensures IsValue(token) <==>
            !IsText(token) || token == [] || token[0] != DASH || token == [DASH] ||
            exists n: nat, rest: OsString :: IsMinus(token, n, rest)
  {
    if StartsDash(token) && |token| > 1 && IsDigit(token[1]) {
      DigitIsMinus(token);
    }
    if n: nat, rest: OsString :| IsMinus(token, n, rest) {
      MinusIsValue(token, n, rest);
    }
  }

  // So a number with a dash in front, behind an option that takes such values, is attached to it.
  lemma MinusAttached(sp: Spellings, option: OsString, o: Occurrence, minus: OsString, n: nat, rest: OsString,
                      more: seq<OsString>)
    requires HeadOf(sp, [option]) == Head.Option(o) && IsMinus(minus, n, rest)
    ensures Lead(o) + [Attached(o.canonical, minus)] <= Rewrite(sp, [option, minus] + more)
  {
    var tokens := [option, minus] + more;
    MinusIsValue(minus, n, rest);
    assert tokens[1..] == [minus] + more && HeadOf(sp, tokens) == Head.Option(o);
    AttachNext(o.canonical, [minus] + more, 0);
    assert ([minus] + more)[0..] == [minus] + more;
  }
}
