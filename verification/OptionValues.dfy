/**
 The number conversion of the benchmark's parser for every text, and the parser's literal
 option names, end to end.
 */
module OptionValues {
  import opened Arith
  import opened Decimal
  import opened Wrappers
  import opened Numerals
  import opened Options

  // ----- the conversion -----

  lemma {:induction false} ConvertsDigits(s: string, sign: string, digits: string, rest: string)
    requires Trimmed(s) == sign + (digits + rest) && sign in {"", "+", "-"}
    requires digits != "" && AllDigits(digits) && !StartsWithDigit(rest)
    ensures AsNum(s) == if Value(digits) >= ULONG then None
                        else Some((if sign == "-" then ULONG - Value(digits) else Value(digits)) % UINT32)
  {
    SignFound(Trimmed(s), sign, digits, rest);
    DigitsOfShow(digits, rest);
    hide Trimmed, Digits, Value, AllDigits, Digit, StartsWithDigit;
  }

  /** A spelled number is read modulo 2^32, after negation modulo 2^64 if there is a minus sign. */
  lemma {:induction false} NumberRead(s: string, white: string, sign: string, z: nat, n: nat, rest: string)
    requires Spells(s, white, sign, z, n, rest)
    ensures AsNum(s) == if n >= 0x1_0000_0000_0000_0000 then None
                        else Some((if sign == "-" then 0x1_0000_0000_0000_0000 - n else n) % 0x1_0000_0000)
  {
    var digits := Zeros(z) + Show(n);
    var t := sign + (digits + rest);
    ZerosValue(z, Show(n));
    ValueOfShow(n);
    hide Show, AsNum, Value, Trimmed;
    assert s == white + t && Digit(digits[0]);
    assert t[0] == if sign == "" then digits[0] else sign[0];
    TrimWhite(white, t);
    ConvertsDigits(s, sign, digits, rest);
  }

  lemma {:induction false} ConvertedParts(s: string) returns (sign: string, u: string)
    requires AsNum(s).Some?
    ensures Trimmed(s) == sign + u && sign in {"", "+", "-"}
    ensures Digits(u) != "" && Value(Digits(u)) < ULONG
  {
    hide Trimmed, Digits, Value;
    var t := Trimmed(s);
    if t != "" && t[0] in {'+', '-'} {
      sign, u := t[..1], t[1..];
      assert sign == [t[0]];
    } else {
      sign, u := "", t;
    }
    assert t == sign + u;
  }

  lemma {:induction false} ConvertedSpells(s: string)
      returns (white: string, sign: string, z: nat, n: nat, rest: string)
    requires AsNum(s).Some?
    ensures Spells(s, white, sign, z, n, rest) && n < 0x1_0000_0000_0000_0000
  {
    var u;
    sign, u := ConvertedParts(s);
    white := LeadingWhite(s);
    DigitsStop(u);
    hide AsNum, Trimmed, Value, Show, White, StartsWithDigit, Zeros;
    var digits := Digits(u);
    n, rest := Value(digits), u[|digits|..];
    z := DigitsSpell(digits);
    hide Digits;
    Regroup(s, white, sign, Zeros(z) + Show(n), rest, u);
  }

  /** For every text: it is converted if and only if it spells a number below 2^64; else the conversion throws. */
  lemma {:induction false} NumberIff(s: string)
    ensures AsNum(s).Some? <==> exists white, sign, z: nat, n: nat, rest ::
              Spells(s, white, sign, z, n, rest) && n < 0x1_0000_0000_0000_0000
  {
    hide AsNum, Spells;
    if AsNum(s).Some? {
      var white, sign, z, n, rest := ConvertedSpells(s);
    }
    if white, sign, z: nat, n: nat, rest :| Spells(s, white, sign, z, n, rest) && n < 0x1_0000_0000_0000_0000 {
      NumberRead(s, white, sign, z, n, rest);
    }
  }

  /** In particular, a text that has no digit after its white space and sign is refused. */
  lemma {:induction false} NoDigitNoNumber(white: string, sign: string, rest: string)
    requires White(white) && sign in {"", "+", "-"} && !StartsWithDigit(rest)
    requires sign == "" ==> rest == "" || !(White(rest[..1]) || rest[0] == '+' || rest[0] == '-')
    ensures AsNum(white + (sign + rest)) == None
  {
    var t := sign + rest;
    assert sign != "" ==> t[0] == sign[0] && t[1..] == rest;
    assert sign == "" ==> t == rest;
    assert rest != "" && sign == "" ==> !Space(rest[0]) by {
      assert rest != "" ==> rest[..1][0] == rest[0];
    }
    TrimWhite(white, t);
    assert Digits(rest) == "";
  }

  // ----- one option, end to end -----

  /** What the field of the option becomes. */
  function Converted(key: Key, text: string): Field {
    if Numeric(key) then Num(if AsNum(text).Some? then AsNum(text).value else 0) else Text(text)
  }

  lemma {:induction false} OneOption(key: Key, text: string, config: Config, other: Key)
    requires Ordinary(text) && text != "" && (Numeric(key) ==> AsNum(text).Some?)
    ensures var o := ParseOf([Name(key), text], config);
            && o.status == Parsed
            && FieldOf(o.config, other) == if other == key then Converted(key, text) else FieldOf(config, other)
  {
    hide ParseOf, FieldOf, AsNum, Name, Flatten, Ordinary, Lookup, Positionals, WellFormed;
    var items := [Opt(key, text)];
    OneItem(key, text);
    var lookup := k => Lookup(items, k);
    ParsedConfiguration(items, lookup, config, other);
  }

  lemma {:induction false} OneItem(key: Key, text: string)
    requires Ordinary(text)
    ensures var items := [Opt(key, text)];
            && Flatten(items) == [Name(key), text] && Positionals(items) == [] && WellFormed(items)
            && forall k :: Lookup(items, k) == if k == key then Some(text) else None
  {
    hide Ordinary, Name;
    var items := [Opt(key, text)];
    assert items[1..] == [];
    assert OrdinaryItem(items[0]);
  }

  lemma {:induction false} SameFields(a: Config, b: Config)
    requires forall key :: FieldOf(a, key) == FieldOf(b, key)
    ensures a == b
  {
    assert FieldOf(a, Runs) == FieldOf(b, Runs) && FieldOf(a, Duration) == FieldOf(b, Duration);
    assert FieldOf(a, Participants) == FieldOf(b, Participants);
    assert FieldOf(a, MessageCount) == FieldOf(b, MessageCount) && FieldOf(a, MessageSize) == FieldOf(b, MessageSize);
    assert FieldOf(a, RegistryUri) == FieldOf(b, RegistryUri);
    assert FieldOf(a, Configuration) == FieldOf(b, Configuration) && FieldOf(a, WriteCsv) == FieldOf(b, WriteCsv);
  }

  lemma {:induction false} Sets(key: Key, text: string, config: Config, after: Config)
    requires Ordinary(text) && text != "" && (Numeric(key) ==> AsNum(text).Some?)
    requires forall other :: FieldOf(after, other) ==
                             if other == key then Converted(key, text) else FieldOf(config, other)
    ensures ParseOf([Name(key), text], config) == Outcome(Parsed, after)
  {
    var o := ParseOf([Name(key), text], config);
    hide ParseOf, FieldOf, AsNum, Name, Ordinary, Converted;
    forall other ensures FieldOf(o.config, other) == FieldOf(after, other) {
      OneOption(key, text, config, other);
    }
    OneOption(key, text, config, Runs);
    SameFields(o.config, after);
  }

  lemma {:induction false} ShownIsOrdinary(n: nat)
    ensures Ordinary(Show(n))
  {
    var s := Show(n);
    assert Digit(s[0]);
    assert HELP[0] == '-';
    forall key ensures s != Name(key) { assert Name(key)[0] == '-'; }
  }

  /** Each numeric option, by the name the user types, sets its own field and nothing else. */
  lemma {:induction false} NumericOptions(n: nat, config: Config)
    requires n < 0x1_0000_0000
    ensures ParseOf(["--message-size", Show(n)], config) == Outcome(Parsed, config.(messageSize := n))
    ensures ParseOf(["--message-count", Show(n)], config) == Outcome(Parsed, config.(messageCount := n))
    ensures ParseOf(["--number-participants", Show(n)], config) == Outcome(Parsed, config.(participants := n))
    ensures ParseOf(["--number-simulation-runs", Show(n)], config) == Outcome(Parsed, config.(runs := n))
    ensures ParseOf(["--simulation-duration", Show(n)], config) == Outcome(Parsed, config.(duration := n))
  {
    ShownIsOrdinary(n);
    NumberOfShown(n);
    hide ParseOf, AsNum, Show, Ordinary;
    Sets(MessageSize, Show(n), config, config.(messageSize := n));
    Sets(MessageCount, Show(n), config, config.(messageCount := n));
    Sets(Participants, Show(n), config, config.(participants := n));
    Sets(Runs, Show(n), config, config.(runs := n));
    Sets(Duration, Show(n), config, config.(duration := n));
  }

  /** The same for the options that take a text. */
  lemma {:induction false} TextOptions(text: string, config: Config)
    requires text != "" && !StartsWithDash(text)
    ensures ParseOf(["--registry-uri", text], config) == Outcome(Parsed, config.(registryUri := text))
    ensures ParseOf(["--configuration", text], config) == Outcome(Parsed, config.(configuration := text))
    ensures ParseOf(["--write-csv", text], config) == Outcome(Parsed, config.(writeCsv := text))
  {
    assert Ordinary(text) by {
      assert HELP[0] == '-';
      forall key ensures text != Name(key) { assert Name(key)[0] == '-'; }
    }
    hide ParseOf, AsNum, Ordinary;
    Sets(RegistryUri, text, config, config.(registryUri := text));
    Sets(Configuration, text, config, config.(configuration := text));
    Sets(WriteCsv, text, config, config.(writeCsv := text));
  }

  /** A numeric option whose value spells no number below 2^64 throws, and the help flag rejects everything. */
  lemma {:induction false} RefusedOptions(name: string, text: string, config: Config)
    requires name in {"--message-size", "--message-count", "--number-participants", "--number-simulation-runs",
                      "--simulation-duration"}
    requires Ordinary(text) && text != ""
    requires forall white, sign, z: nat, n: nat, rest ::
               Spells(text, white, sign, z, n, rest) ==> n >= 0x1_0000_0000_0000_0000
    ensures ParseOf([name, text], config).status == Threw
  {
    NumberIff(text);
    assert exists key :: Numeric(key) && Name(key) == name by {
      assert Name(MessageSize) == "--message-size" && Name(MessageCount) == "--message-count";
      assert Name(Participants) == "--number-participants" && Name(Runs) == "--number-simulation-runs";
      assert Name(Duration) == "--simulation-duration";
    }
    var key :| Numeric(key) && Name(key) == name;
    hide ParseOf, FieldOf, AsNum, Name, Flatten, Ordinary, Lookup, Positionals, WellFormed, Spells;
    var items := [Opt(key, text)];
    OneItem(key, text);
    var lookup := k => Lookup(items, k);
    ParsedConfiguration(items, lookup, config, key);
    assert Bad(key, lookup(key));
  }

  lemma {:induction false} HelpIsRejected(args: Args, config: Config)
    requires "--help" in args
    ensures ParseOf(args, config) == Outcome(Rejected, config)
  {
  }

  // ----- what is left behind by a call that gives up -----

  /** The order in which the options are looked for. */
  const ORDER: seq<Key> :=
    [RegistryUri, MessageSize, MessageCount, Participants, Runs, Duration, Configuration, WriteCsv]

  lemma {:induction false} PlaceInOrder(key: Key)
    ensures Place(key) < |ORDER| == OPTIONS && ORDER[Place(key)] == key && KeyAt(Place(key)) == key
    ensures forall i :: 0 <= i < |ORDER| ==> Place(ORDER[i]) == i
  {
  }

  lemma {:induction false} AssignedUpTo(i: nat, lookup: Key -> Option<string>, config: Config, bad: Key, key: Key)
    requires i <= Place(bad) && Bad(bad, lookup(bad))
    requires forall k :: i <= Place(k) < Place(bad) ==> !Bad(k, lookup(k))
    ensures var (threw, after) := Assigned(i, lookup, config);
            && threw
            && FieldOf(after, key) == if i <= Place(key) < Place(bad) then Given(key, lookup(key), FieldOf(config, key))
                                      else FieldOf(config, key)
    decreases OPTIONS - i
  {
    var here := KeyAt(i);
    PlaceInOrder(bad);
    PlaceInOrder(key);
    assert Place(here) == i;
    AssignOne(here, lookup(here), config, key);
    hide KeyAt, FieldOf, AssignNonEmpty, Bad, Given, Place;
    var next := AssignNonEmpty(here, if lookup(here).Some? then lookup(here).value else "", config);
    if i < Place(bad) { AssignedUpTo(i + 1, lookup, next.value, bad, key); }
  }

  lemma {:induction false} AssignOne(here: Key, value: Option<string>, config: Config, key: Key)
    ensures var next := AssignNonEmpty(here, if value.Some? then value.value else "", config);
            && (next.None? <==> Bad(here, value)) && (value.None? ==> next == Some(config))
            && (next.Some? ==> FieldOf(next.value, key) ==
                               if key == here then Given(key, value, FieldOf(config, key)) else FieldOf(config, key))
  {
    AssignSetsItsField(here, if value.Some? then value.value else "", config, key);
    hide FieldOf, Assign, Numeric, AsNum;
  }

  /** A call that throws has set the options that come before the offending one, and no others. */
  lemma {:induction false} ThrewAt(items: seq<Item>, lookup: Key -> Option<string>, config: Config, i: nat, k: nat)
    requires WellFormed(items) && forall key :: lookup(key) == Lookup(items, key)
    requires i < 8 && k < 8 && Bad(ORDER[i], lookup(ORDER[i]))
    requires forall j :: 0 <= j < i ==> !Bad(ORDER[j], lookup(ORDER[j]))
    ensures var o := ParseOf(Flatten(items), config);
            && o.status == Threw
            && FieldOf(o.config, ORDER[k]) == if k < i then Given(ORDER[k], lookup(ORDER[k]), FieldOf(config, ORDER[k]))
                                              else FieldOf(config, ORDER[k])
  {
    PlaceInOrder(ORDER[i]);
    forall key | Place(key) < i ensures !Bad(key, lookup(key)) { PlaceInOrder(key); }
    hide WellFormed, Flatten, ParseOf, FieldOf, Bad, Given, Assigned, Place;
    ParseIsReference(items, lookup, config);
    AssignedUpTo(0, lookup, config, ORDER[i], ORDER[k]);
  }

  /** Of `k` positional arguments, the one at `bad` is the last that is refused. */
  ghost predicate LastRefused(args: Args, k: nat, bad: nat)
    requires k <= |args|
  {
    && bad < k && bad < 5 && AsNum(args[bad]).None?
    && forall j :: bad < j < k && j < 5 ==> AsNum(args[j]).Some?
  }

  /** Positional arguments are taken from the last to the first; those before the refused one are not taken. */
  lemma {:induction false} RejectedAt(args: Args, k: nat, config: Config, bad: nat, key: Key)
    requires k <= |args| && k <= 6 && LastRefused(args, k, bad)
    ensures var o := Fill(args, k, config);
            && o.status == Rejected
            && FieldOf(o.config, key) == if Positioned(key, args, bad + 1).Some? then FieldOf(config, key)
                                         else Put(key, Positioned(key, args, k), FieldOf(config, key))
  {
    AssignSetsItsField(PositionKey(k - 1), args[k - 1], config, key);
    PositionedStep(key, args, k);
    hide FieldOf, Assign, AsNum, PositionKey, Numeric;
    if bad < k - 1 {
      assert LastRefused(args, k - 1, bad);
      RejectedAt(args, k - 1, Assign(PositionKey(k - 1), args[k - 1], config).value, bad, key);
    }
  }

  /**
   A call that is rejected for a positional argument has set the options, and the arguments
   behind the refused one, and no others.
   */
  lemma {:induction false} PositionRefused(items: seq<Item>, lookup: Key -> Option<string>, config: Config,
                                           bad: nat, key: Key)
    requires WellFormed(items) && forall k :: lookup(k) == Lookup(items, k)
    requires forall k :: !Bad(k, lookup(k))
    requires forall j :: 0 <= j < |Positionals(items)| ==> !StartsWithDash(Positionals(items)[j])
    requires |Positionals(items)| <= 6 && LastRefused(Positionals(items), |Positionals(items)|, bad)
    ensures var o, args := ParseOf(Flatten(items), config), Positionals(items);
            var given := Given(key, lookup(key), FieldOf(config, key));
            && o.status == Rejected
            && FieldOf(o.config, key) == if Positioned(key, args, bad + 1).Some? then given
                                         else Put(key, Positioned(key, args, |args|), given)
  {
    var args := Positionals(items);
    ParseIsReference(items, lookup, config);
    AssignedFields(0, lookup, config, key);
    RejectedAt(args, |args|, Assigned(0, lookup, config).1, bad, key);
    hide Assigned, WellFormed, Flatten, Positionals, ParseOf, FieldOf, AsNum, Fill, Place, Bad, Given, Put, Positioned;
  }
}
