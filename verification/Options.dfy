/**
 The command-line parser of the benchmark demo.  It works on a copy of the arguments:
 every named option is looked for, and erased together with the argument after it; what
 is left over is positional.

 `ParseOf` follows the code.  `Reference` is written without any argument list: it sees
 only which option has which value, and the positional arguments in order.
 */
module Options {

  import opened Arith
  import opened Decimal
  import opened Wrappers

  const ULONG: nat := 0x1_0000_0000_0000_0000

  datatype Config = Config(
    runs: nat, duration: nat, participants: nat, messageCount: nat, messageSize: nat,
    registryUri: string, configuration: string, writeCsv: string)

  datatype Key = RegistryUri | MessageSize | MessageCount | Participants | Runs | Duration | Configuration | WriteCsv

  const OPTIONS: nat := 8

  /** The order in which the parser looks for the options. */
  function Place(key: Key): (i: nat)
    ensures i < OPTIONS
  {
    match key
    case RegistryUri => 0 case MessageSize => 1 case MessageCount => 2 case Participants => 3
    case Runs => 4 case Duration => 5 case Configuration => 6 case WriteCsv => 7
  }

  function KeyAt(i: nat): (key: Key)
    ensures i < OPTIONS ==> Place(key) == i
    ensures forall other :: Place(other) == i ==> other == key
  {
    match i
    case 0 => RegistryUri case 1 => MessageSize case 2 => MessageCount case 3 => Participants
    case 4 => Runs case 5 => Duration case 6 => Configuration case _ => WriteCsv
  }

  const HELP: string := "--help"

  function Name(key: Key): string {
    match key
    case RegistryUri => "--registry-uri"
    case MessageSize => "--message-size"
    case MessageCount => "--message-count"
    case Participants => "--number-participants"
    case Runs => "--number-simulation-runs"
    case Duration => "--simulation-duration"
    case Configuration => "--configuration"
    case WriteCsv => "--write-csv"
  }

  lemma {:induction false} NamesDiffer(a: Key, b: Key)
    requires a != b
    ensures Name(a) != Name(b)
  {
    // lengths 14, 14, 15, 21, 24, 21, 15, 11: only equal lengths need a letter
    assert Name(RegistryUri)[2] == 'r' && Name(MessageSize)[2] == 'm';
    assert Name(MessageCount)[2] == 'm' && Name(Configuration)[2] == 'c';
    assert Name(Participants)[2] == 'n' && Name(Duration)[2] == 's';
  }

  // ----- numbers -----

  /** `stoul`, then the conversion to 32 bits; none if it throws. */
  function AsNum(s: string): Option<nat> {
    var t := Trimmed(s);
    var negative := t != "" && t[0] == '-';
    var digits := Digits(if t != "" && t[0] in {'+', '-'} then t[1..] else t);
    if digits == "" || Value(digits) >= ULONG then None
    else Some((if negative then ULONG - Value(digits) else Value(digits)) % UINT32)
  }

  // ----- the code -----

  type Args = seq<string>

  function IndexOf(args: Args, x: string): (i: nat)
    requires x in args
    ensures i < |args| && args[i] == x && x !in args[..i]
  {
    if args[0] == x then 0 else 1 + IndexOf(args[1..], x)
  }

  datatype Got = Absent | Missing | Found(value: string, rest: Args)

  /** The value is missing if the name comes last. */
  function GetArg(args: Args, name: string): Got {
    if name !in args then Absent else
    var i := IndexOf(args, name);
    if i + 1 == |args| then Missing else Found(args[i + 1], args[..i] + args[i + 2..])
  }

  function SetNumber(key: Key, value: nat, config: Config): Config {
    match key
    case MessageSize => config.(messageSize := value)
    case MessageCount => config.(messageCount := value)
    case Participants => config.(participants := value)
    case Runs => config.(runs := value)
    case Duration => config.(duration := value)
    case _ => config
  }

  /** None if the conversion throws. */
  function Assign(key: Key, value: string, config: Config): Option<Config> {
    match key
    case RegistryUri => Some(config.(registryUri := value))
    case Configuration => Some(config.(configuration := value))
    case WriteCsv => Some(config.(writeCsv := value))
    case _ =>
      match AsNum(value)
      case None => None
      case Some(n) => Some(SetNumber(key, n, config))
  }

  /** An empty value counts as no value. */
  function AssignNonEmpty(key: Key, value: string, config: Config): Option<Config> {
    if value == "" then Some(config) else Assign(key, value, config)
  }

  datatype Status = Parsed | Rejected | Threw

  datatype Outcome = Outcome(status: Status, config: Config)

  datatype Scan = Scan(threw: bool, args: Args, config: Config)

  /** The options from the `i`-th on. */
  function Named(i: nat, args: Args, config: Config): Scan
    decreases OPTIONS - i
  {
    if i >= OPTIONS then Scan(false, args, config) else
    match GetArg(args, Name(KeyAt(i)))
    case Absent => Named(i + 1, args, config)
    case Missing => Scan(true, args, config)
    case Found(value, rest) =>
      match AssignNonEmpty(KeyAt(i), value, config)
      case None => Scan(true, rest, config)
      case Some(next) => Named(i + 1, rest, next)
  }

  predicate StartsWithDash(s: string) { s != "" && s[0] == '-' }

  function PositionKey(i: nat): Key {
    match i
    case 0 => Runs case 1 => Duration case 2 => Participants case 3 => MessageCount case 4 => MessageSize
    case _ => RegistryUri
  }

  /** The switch with its fall-through: the last position is assigned first. */
  function Fill(args: Args, k: nat, config: Config): Outcome
    requires k <= |args|
  {
    if k == 0 then Outcome(Parsed, config) else
    match Assign(PositionKey(k - 1), args[k - 1], config)
    case None => Outcome(Rejected, config)
    case Some(next) => Fill(args, k - 1, next)
  }

  /** What happens to the arguments that are left over. */
  function Positional(args: Args, config: Config): Outcome {
    if (exists i :: 0 <= i < |args| && StartsWithDash(args[i])) || |args| > 7 then Outcome(Rejected, config)
    else if 1 <= |args| <= 6 then Fill(args, |args|, config)
    else Outcome(Parsed, config)
  }

  function ParseOf(args: Args, config: Config): Outcome {
    if HELP in args then Outcome(Rejected, config) else
    var scan := Named(0, args, config);
    if scan.threw then Outcome(Threw, scan.config) else Positional(scan.args, scan.config)
  }

  /** One `parseOptional` call, the `i`-th; it does nothing once an earlier one has thrown. */
  method ParseOptional(i: nat, threwBefore: bool, args: Args, config: Config)
    returns (threw: bool, rest: Args, next: Config)
    requires i < OPTIONS
    ensures threwBefore ==> threw && rest == args && next == config
    ensures !threwBefore && threw ==> Named(i, args, config) == Scan(true, rest, next)
    ensures !threw ==> Named(i, args, config) == Named(i + 1, rest, next)
  {
    hide IndexOf, Assign, KeyAt, Name;
    threw, rest, next := threwBefore, args, config;
    var name := Name(KeyAt(i));
    if !threwBefore && name in args {
      var at := IndexOf(args, name);
      if at + 1 == |args| {
        threw := true;
        return;
      }
      var value := args[at + 1];
      rest := args[..at] + args[at + 2..];
      if value != "" {
        match Assign(KeyAt(i), value, config)
        case None => threw := true;
        case Some(updated) => next := updated;
      }
    }
  }

  method NamedOptions(arguments: Args, defaults: Config) returns (threw: bool, args: Args, config: Config)
    ensures Named(0, arguments, defaults) == Scan(threw, args, config)
  {
    NamedNone();
    hide Named;
    threw, args, config := ParseOptional(0, false, arguments, defaults);
    threw, args, config := ParseOptional(1, threw, args, config);
    threw, args, config := ParseOptional(2, threw, args, config);
    threw, args, config := ParseOptional(3, threw, args, config);
    threw, args, config := ParseOptional(4, threw, args, config);
    threw, args, config := ParseOptional(5, threw, args, config);
    threw, args, config := ParseOptional(6, threw, args, config);
    threw, args, config := ParseOptional(7, threw, args, config);
  }

  lemma {:induction false} NamedNone()
    ensures forall args, config :: Named(OPTIONS, args, config) == Scan(false, args, config)
  {
  }

  method Parse(arguments: Args, defaults: Config) returns (status: Status, config: Config)
    ensures Outcome(status, config) == ParseOf(arguments, defaults)
  {
    hide Named, Fill, GetArg, AsNum, Name;
    if HELP in arguments {
      return Rejected, defaults;
    }
    var threw, args;
    threw, args, config := NamedOptions(arguments, defaults);
    if threw {
      return Threw, config;
    }
    for i := 0 to |args|
      invariant forall k :: 0 <= k < i ==> !StartsWithDash(args[k])
    {
      if StartsWithDash(args[i]) {
        return Rejected, config;
      }
    }
    if |args| > 7 {
      return Rejected, config;
    }
    status := Parsed;
    if 1 <= |args| <= 6 {
      status, config := Positions(args, config);
    }
  }

  /** One assignment of the switch, unless the list is too short or an earlier one threw. */
  method AssignPosition(i: nat, args: Args, before: Status, start: Config) returns (status: Status, config: Config)
    requires before != Threw
    ensures before.Rejected? || |args| <= i ==> status == before && config == start
    ensures before.Parsed? && i < |args| && status.Parsed? ==> Fill(args, i + 1, start) == Fill(args, i, config)
    ensures before.Parsed? && i < |args| && !status.Parsed? ==> Fill(args, i + 1, start) == Outcome(status, config)
    ensures status != Threw
  {
    hide Assign, PositionKey;
    status, config := before, start;
    if status.Parsed? && i < |args| {
      match Assign(PositionKey(i), args[i], config)
      case None => status := Rejected;
      case Some(next) => config := next;
    }
  }

  method Positions(args: Args, start: Config) returns (status: Status, config: Config)
    requires 1 <= |args| <= 6
    ensures Outcome(status, config) == Fill(args, |args|, start)
  {
    FillNone(args);
    hide Fill;
    status, config := AssignPosition(5, args, Parsed, start);
    status, config := AssignPosition(4, args, status, config);
    status, config := AssignPosition(3, args, status, config);
    status, config := AssignPosition(2, args, status, config);
    status, config := AssignPosition(1, args, status, config);
    status, config := AssignPosition(0, args, status, config);
  }

  lemma {:induction false} FillNone(args: Args)
    ensures forall config :: Fill(args, 0, config) == Outcome(Parsed, config)
  {
  }

  // ----- the reference -----

  datatype Item = Opt(key: Key, value: string) | Pos(text: string)

  function Flatten(items: seq<Item>): Args {
    if items == [] then [] else
    (match items[0] case Opt(key, value) => [Name(key), value] case Pos(text) => [text]) + Flatten(items[1..])
  }

  /** Not an option name, and not the help flag. */
  ghost predicate Ordinary(s: string) { s != HELP && forall key :: s != Name(key) }

  ghost predicate OrdinaryItem(item: Item) { Ordinary(if item.Opt? then item.value else item.text) }

  /** No option twice, and no option name in the place of a value or positional argument. */
  ghost predicate WellFormed(items: seq<Item>) {
    && (forall i :: 0 <= i < |items| ==> OrdinaryItem(items[i]))
    && (forall i, j :: 0 <= i < j < |items| && items[i].Opt? && items[j].Opt? ==> items[i].key != items[j].key)
  }

  function Lookup(items: seq<Item>, key: Key): Option<string> {
    if items == [] then None
    else if items[0].Opt? && items[0].key == key then Some(items[0].value)
    else Lookup(items[1..], key)
  }

  function Positionals(items: seq<Item>): Args {
    if items == [] then [] else
    (if items[0].Pos? then [items[0].text] else []) + Positionals(items[1..])
  }

  /** The named part: the values in the parser's own order; the flag says that one of them threw. */
  function Assigned(i: nat, lookup: Key -> Option<string>, config: Config): (bool, Config)
    decreases OPTIONS - i
  {
    if i >= OPTIONS then (false, config) else
    match lookup(KeyAt(i))
    case None => Assigned(i + 1, lookup, config)
    case Some(value) =>
      match AssignNonEmpty(KeyAt(i), value, config)
      case None => (true, config)
      case Some(next) => Assigned(i + 1, lookup, next)
  }

  function Reference(lookup: Key -> Option<string>, positionals: Args, config: Config): Outcome {
    var (threw, next) := Assigned(0, lookup, config);
    if threw then Outcome(Threw, next) else Positional(positionals, next)
  }

  // ----- the code and the reference agree -----

  lemma {:induction false} GetShift(x: string, args: Args, name: string)
    requires x != name
    ensures GetArg([x] + args, name) == match GetArg(args, name)
                                        case Absent => Absent
                                        case Missing => Missing
                                        case Found(value, rest) => Found(value, [x] + rest)
  {
    var longer := [x] + args;
    assert longer[1..] == args && longer[0] == x;
    if name in args {
      assert name in longer;
      var i := IndexOf(args, name);
      assert IndexOf(longer, name) == i + 1;
      if i + 1 < |args| {
        assert longer[..i + 1] + longer[i + 3..] == [x] + (args[..i] + args[i + 2..]);
      }
    }
  }

  lemma {:induction false} GetHead(name: string, value: string, args: Args)
    ensures GetArg([name, value] + args, name) == Found(value, args)
  {
    var all := [name, value] + args;
    assert all[0] == name;
    assert all[..0] + all[2..] == args;
  }

  /** The items without the option. */
  function Without(items: seq<Item>, key: Key): seq<Item> {
    if items == [] then []
    else if items[0].Opt? && items[0].key == key then items[1..]
    else [items[0]] + Without(items[1..], key)
  }

  lemma {:induction false} GetOf(items: seq<Item>, key: Key)
    requires forall i :: 0 <= i < |items| ==> OrdinaryItem(items[i])
    ensures GetArg(Flatten(items), Name(key)) == match Lookup(items, key)
                                                 case None => Absent
                                                 case Some(value) => Found(value, Flatten(Without(items, key)))
  {
    hide GetArg, Name;
    if items == [] {
      GetNone(Name(key));
    } else {
      var head, tail := items[0], items[1..];
      assert OrdinaryItem(head);
      GetOf(tail, key);
      if head.Opt? && head.key == key {
        GetHead(Name(key), head.value, Flatten(tail));
      } else if head.Opt? {
        NamesDiffer(head.key, key);
        assert Flatten(items) == [Name(head.key)] + ([head.value] + Flatten(tail));
        GetShift(Name(head.key), [head.value] + Flatten(tail), Name(key));
        GetShift(head.value, Flatten(tail), Name(key));
        ShiftedPair(head, tail, key);
      } else {
        GetShift(head.text, Flatten(tail), Name(key));
        ShiftedPair(head, tail, key);
      }
    }
  }

  lemma {:induction false} GetNone(name: string)
    ensures GetArg([], name) == Absent
  {
  }

  lemma {:induction false} ShiftedPair(head: Item, tail: seq<Item>, key: Key)
    ensures Flatten([head] + Without(tail, key)) ==
            (if head.Opt? then [Name(head.key)] + ([head.value] + Flatten(Without(tail, key)))
             else [head.text] + Flatten(Without(tail, key)))
  {
    hide Name;
    assert ([head] + Without(tail, key))[1..] == Without(tail, key);
  }

  lemma {:induction false} WellFormedTail(items: seq<Item>)
    requires WellFormed(items) && items != []
    ensures WellFormed(items[1..]) && OrdinaryItem(items[0])
    ensures forall k :: 0 <= k < |items| - 1 && items[0].Opt? && items[1..][k].Opt? ==>
              items[1..][k].key != items[0].key
  {
    hide OrdinaryItem;
    assert forall k :: 0 <= k < |items| - 1 ==> items[1..][k] == items[k + 1];
  }

  lemma {:induction false} WellFormedCons(head: Item, tail: seq<Item>)
    requires WellFormed(tail) && OrdinaryItem(head)
    requires forall k :: 0 <= k < |tail| && head.Opt? && tail[k].Opt? ==> tail[k].key != head.key
    ensures WellFormed([head] + tail)
  {
    hide OrdinaryItem;
  }

  lemma {:induction false} WithoutIn(items: seq<Item>, key: Key, k: nat)
    requires k < |Without(items, key)|
    ensures Without(items, key)[k] in items
  {
    if !(items[0].Opt? && items[0].key == key) && k > 0 {
      WithoutIn(items[1..], key, k - 1);
    }
  }

  lemma {:induction false} WithoutWellFormed(items: seq<Item>, key: Key)
    requires WellFormed(items)
    ensures var rest := Without(items, key);
            WellFormed(rest) && forall k :: 0 <= k < |rest| && rest[k].Opt? ==> rest[k].key != key
  {
    if items != [] {
      WellFormedTail(items);
      var head, tail := items[0], items[1..];
      if !(head.Opt? && head.key == key) {
        WithoutWellFormed(tail, key);
        var rest := Without(tail, key);
        hide WellFormed, Without, OrdinaryItem;
        forall k | 0 <= k < |rest| && head.Opt? && rest[k].Opt? ensures rest[k].key != head.key {
          WithoutIn(tail, key, k);
        }
        WellFormedCons(head, rest);
        WithoutHead(items, key);
      } else {
        WithoutHead(items, key);
      }
    }
  }

  lemma {:induction false} WithoutHead(items: seq<Item>, key: Key)
    requires items != []
    ensures Without(items, key) ==
            if items[0].Opt? && items[0].key == key then items[1..] else [items[0]] + Without(items[1..], key)
  {
  }

  lemma {:induction false} WithoutKeeps(items: seq<Item>, key: Key, other: Key)
    ensures var rest := Without(items, key);
            && (other != key ==> Lookup(rest, other) == Lookup(items, other))
            && Positionals(rest) == Positionals(items)
  {
    if items != [] {
      WithoutKeeps(items[1..], key, other);
      var rest := Without(items, key);
      if !(items[0].Opt? && items[0].key == key) {
        assert rest[1..] == Without(items[1..], key) && rest[0] == items[0];
      }
    }
  }

  /** `lookup` gives the values of the options from the `i`-th on. */
  ghost predicate Agrees(items: seq<Item>, i: nat, lookup: Key -> Option<string>) {
    && (forall k :: 0 <= k < |items| && items[k].Opt? ==> Place(items[k].key) >= i)
    && (forall key :: Place(key) >= i ==> lookup(key) == Lookup(items, key))
  }

  lemma {:induction false} AgreesNext(items: seq<Item>, i: nat, lookup: Key -> Option<string>)
    requires WellFormed(items) && i < OPTIONS && Agrees(items, i, lookup)
    ensures var rest := Without(items, KeyAt(i));
            WellFormed(rest) && Agrees(rest, i + 1, lookup) && Positionals(rest) == Positionals(items)
  {
    var key := KeyAt(i);
    var rest := Without(items, key);
    hide KeyAt, Place, Without, WellFormed, Lookup, Positionals, Name;
    WithoutWellFormed(items, key);
    WithoutKeeps(items, key, key);
    forall other | Place(other) >= i + 1 ensures lookup(other) == Lookup(rest, other) {
      WithoutKeeps(items, key, other);
    }
    forall k | 0 <= k < |rest| && rest[k].Opt? ensures Place(rest[k].key) >= i + 1 {
      WithoutIn(items, key, k);
      PlaceIsNot(rest[k].key, i);
    }
  }

  lemma {:induction false} PlaceIsNot(key: Key, i: nat)
    requires key != KeyAt(i)
    ensures Place(key) != i
  {
  }

  lemma {:induction false} WithoutAbsent(items: seq<Item>, key: Key)
    requires Lookup(items, key).None?
    ensures Without(items, key) == items
  {
    if items != [] { WithoutAbsent(items[1..], key); }
  }

  lemma {:induction false} FlattenPositionals(items: seq<Item>)
    requires forall k :: 0 <= k < |items| ==> items[k].Pos?
    ensures Flatten(items) == Positionals(items)
  {
    if items != [] { FlattenPositionals(items[1..]); }
  }

  lemma {:induction false} NamedOf(i: nat, items: seq<Item>, lookup: Key -> Option<string>, config: Config)
    requires i <= OPTIONS && WellFormed(items) && Agrees(items, i, lookup)
    ensures var scan := Named(i, Flatten(items), config);
            && (scan.threw, scan.config) == Assigned(i, lookup, config)
            && (!scan.threw ==> scan.args == Positionals(items))
    decreases OPTIONS - i
  {
    if i == OPTIONS {
      forall k | 0 <= k < |items| ensures items[k].Pos? {
        assert items[k].Opt? ==> Place(items[k].key) >= OPTIONS;
      }
      FlattenPositionals(items);
    } else {
      var key := KeyAt(i);
      assert lookup(key) == Lookup(items, key) by { assert Place(key) == i; }
      GetOf(items, key);
      AgreesNext(items, i, lookup);
      if Lookup(items, key).None? { WithoutAbsent(items, key); }
      hide KeyAt, Place, Without, WellFormed, Agrees, Lookup, Positionals, Name, GetArg, Flatten, AssignNonEmpty;
      match lookup(key)
      case None =>
        NamedOf(i + 1, items, lookup, config);
      case Some(value) =>
        if AssignNonEmpty(key, value, config).Some? {
          NamedOf(i + 1, Without(items, key), lookup, AssignNonEmpty(key, value, config).value);
        }
    }
  }

  lemma {:induction false} NoHelp(items: seq<Item>)
    requires forall k :: 0 <= k < |items| ==> OrdinaryItem(items[k])
    ensures HELP !in Flatten(items)
  {
    if items != [] {
      assert OrdinaryItem(items[0]);
      NoHelp(items[1..]);
      if items[0].Opt? { NotHelp(items[0].key); }
      hide Name;
    }
  }

  lemma {:induction false} NotHelp(key: Key)
    ensures Name(key) != HELP
  {
    assert |Name(key)| > |HELP|;
  }

  // ----- the main results -----

  /**
   The parser's whole outcome (success, rejection or exception, and the configuration) is a
   function of the option values and the positional list.
   */
  lemma {:induction false} ParseIsReference(items: seq<Item>, lookup: Key -> Option<string>, config: Config)
    requires WellFormed(items) && forall key :: lookup(key) == Lookup(items, key)
    ensures ParseOf(Flatten(items), config) == Reference(lookup, Positionals(items), config)
  {
    NoHelp(items);
    NamedOf(0, items, lookup, config);
    hide Named, Assigned, Positional, Flatten, WellFormed;
  }

  lemma {:induction false} LookupIsMember(items: seq<Item>, key: Key, value: string)
    requires WellFormed(items)
    ensures Lookup(items, key) == Some(value) <==> Opt(key, value) in items
  {
    hide Name;
    if items != [] {
      var tail := items[1..];
      assert WellFormed(tail) by {
        assert forall k :: 0 <= k < |tail| ==> tail[k] == items[k + 1];
      }
      LookupIsMember(tail, key, value);
      assert items == [items[0]] + tail;
      forall k | 0 <= k < |tail| ensures items[0].Opt? && tail[k].Opt? ==> tail[k].key != items[0].key {
        assert tail[k] == items[k + 1];
      }
    }
  }

  /**
   The options may come in any order and anywhere between the positional arguments, whose
   own order is all that matters.
   */
  lemma {:induction false} OrderDoesNotMatter(a: seq<Item>, b: seq<Item>, config: Config)
    requires WellFormed(a) && WellFormed(b)
    requires multiset(a) == multiset(b) && Positionals(a) == Positionals(b)
    ensures ParseOf(Flatten(a), config) == ParseOf(Flatten(b), config)
  {
    hide WellFormed, Flatten, ParseOf, Reference, Positionals;
    var lookup := key => Lookup(a, key);
    forall key ensures lookup(key) == Lookup(b, key) {
      SameLookup(a, b, key);
    }
    ParseIsReference(a, lookup, config);
    ParseIsReference(b, lookup, config);
  }

  lemma {:induction false} SameLookup(a: seq<Item>, b: seq<Item>, key: Key)
    requires WellFormed(a) && WellFormed(b) && multiset(a) == multiset(b)
    ensures Lookup(a, key) == Lookup(b, key)
  {
    hide WellFormed, Lookup;
    if Lookup(a, key).Some? {
      LookupIsMember(a, key, Lookup(a, key).value);
      assert Opt(key, Lookup(a, key).value) in multiset(a);
      LookupIsMember(b, key, Lookup(a, key).value);
    } else if Lookup(b, key).Some? {
      LookupIsMember(b, key, Lookup(b, key).value);
      assert Opt(key, Lookup(b, key).value) in multiset(b);
      LookupIsMember(a, key, Lookup(b, key).value);
    }
  }

  // ----- what a successful call leaves in the configuration -----

  predicate Numeric(key: Key) { key !in {RegistryUri, Configuration, WriteCsv} }

  /** A value that the conversion of its option rejects. */
  predicate Bad(key: Key, value: Option<string>) {
    value.Some? && value.value != "" && Numeric(key) && AsNum(value.value).None?
  }

  datatype Field = Num(n: nat) | Text(s: string)

  function FieldOf(config: Config, key: Key): Field {
    match key
    case Runs => Num(config.runs)
    case Duration => Num(config.duration)
    case Participants => Num(config.participants)
    case MessageCount => Num(config.messageCount)
    case MessageSize => Num(config.messageSize)
    case RegistryUri => Text(config.registryUri)
    case Configuration => Text(config.configuration)
    case WriteCsv => Text(config.writeCsv)
  }

  /** A field for which `value` was given, if any was. */
  function Given(key: Key, value: Option<string>, otherwise: Field): Field {
    if value.None? || value.value == "" || Bad(key, value) then otherwise
    else if Numeric(key) then Num(AsNum(value.value).value)
    else Text(value.value)
  }

  lemma {:induction false} AssignSetsItsField(key: Key, value: string, config: Config, other: Key)
    ensures Assign(key, value, config).None? <==> Numeric(key) && AsNum(value).None?
    ensures var after := Assign(key, value, config);
            after.Some? ==> FieldOf(after.value, other) ==
                            if other != key then FieldOf(config, other)
                            else if Numeric(key) then Num(AsNum(value).value) else Text(value)
  {
    hide AsNum;
  }

  lemma {:induction false} AssignedFields(i: nat, lookup: Key -> Option<string>, config: Config, key: Key)
    ensures var (threw, after) := Assigned(i, lookup, config);
            && (threw <==> exists k :: Place(k) >= i && Bad(k, lookup(k)))
            && (!threw ==> FieldOf(after, key) == if Place(key) >= i then Given(key, lookup(key), FieldOf(config, key))
                                                  else FieldOf(config, key))
    decreases OPTIONS - i
  {
    if i < OPTIONS {
      var here := KeyAt(i);
      var next := AssignNonEmpty(here, if lookup(here).Some? then lookup(here).value else "", config);
      AssignSetsItsField(here, if lookup(here).Some? then lookup(here).value else "", config, key);
      assert Bad(here, lookup(here)) <==> next.None?;
      assert forall k :: Place(k) >= i <==> Place(k) >= i + 1 || k == here;
      hide KeyAt, Place, FieldOf, Assign, Numeric, AsNum;
      if next.Some? { AssignedFields(i + 1, lookup, next.value, key); }
    }
  }

  /** The argument at the position of this option, if there is one. */
  function Positioned(key: Key, args: Args, k: nat): Option<string>
    requires k <= |args|
  {
    match key
    case Runs => if k > 0 then Some(args[0]) else None
    case Duration => if k > 1 then Some(args[1]) else None
    case Participants => if k > 2 then Some(args[2]) else None
    case MessageCount => if k > 3 then Some(args[3]) else None
    case MessageSize => if k > 4 then Some(args[4]) else None
    case RegistryUri => if k > 5 then Some(args[5]) else None
    case _ => None
  }

  /** Unlike a named value, an empty positional one is converted, too. */
  function Put(key: Key, value: Option<string>, otherwise: Field): Field {
    if value.None? || (Numeric(key) && AsNum(value.value).None?) then otherwise
    else if Numeric(key) then Num(AsNum(value.value).value)
    else Text(value.value)
  }

  /** The first five of `k` positional arguments are numbers. */
  ghost predicate NumbersOk(args: Args, k: nat)
    requires k <= |args|
  {
    forall j :: 0 <= j < k && j < 5 ==> AsNum(args[j]).Some?
  }

  lemma {:induction false} NumbersStep(args: Args, k: nat)
    requires 0 < k <= |args|
    ensures NumbersOk(args, k) <==> NumbersOk(args, k - 1) && (k - 1 < 5 ==> AsNum(args[k - 1]).Some?)
  {
    hide AsNum;
  }

  lemma {:induction false} FilledStatus(args: Args, k: nat, config: Config)
    requires k <= |args| && k <= 6
    ensures Fill(args, k, config).status == if NumbersOk(args, k) then Parsed else Rejected
  {
    if k > 0 {
      AssignSetsItsField(PositionKey(k - 1), args[k - 1], config, Runs);
      PositionedStep(Runs, args, k);
      NumbersStep(args, k);
      hide Assign, AsNum, Positioned, PositionKey, Numeric, NumbersOk;
      var next := Assign(PositionKey(k - 1), args[k - 1], config);
      if next.Some? { FilledStatus(args, k - 1, next.value); }
    }
  }

  lemma {:induction false} FilledFields(args: Args, k: nat, config: Config, key: Key)
    requires k <= |args| && k <= 6 && Fill(args, k, config).status == Parsed
    ensures FieldOf(Fill(args, k, config).config, key) == Put(key, Positioned(key, args, k), FieldOf(config, key))
  {
    if k == 0 {
      assert Positioned(key, args, 0) == None;
    } else {
      AssignSetsItsField(PositionKey(k - 1), args[k - 1], config, key);
      PositionedStep(key, args, k);
      hide FieldOf, Assign, AsNum, Positioned, PositionKey, Numeric;
      FilledFields(args, k - 1, Assign(PositionKey(k - 1), args[k - 1], config).value, key);
    }
  }

  lemma {:induction false} PositionedStep(key: Key, args: Args, k: nat)
    requires 0 < k <= |args| && k <= 6
    ensures Positioned(key, args, k) == 
            if key == PositionKey(k - 1) then Some(args[k - 1]) else Positioned(key, args, k - 1)
    ensures key == PositionKey(k - 1) ==> Positioned(key, args, k - 1) == None
    ensures Numeric(PositionKey(k - 1)) <==> k - 1 < 5
  {
  }

  /**
   Which call succeeds, and with which configuration: the number of runs, the duration, the
   participants, the message count, the message size and the URI come from positional
   arguments 0 to 5 if there are that many, else from the option, else they keep their defaults.
   */
  lemma {:induction false} ParsedConfiguration(items: seq<Item>, lookup: Key -> Option<string>, config: Config,
                                               key: Key)
    requires WellFormed(items) && forall k :: lookup(k) == Lookup(items, k)
    ensures var o, args := ParseOf(Flatten(items), config), Positionals(items);
            var used := if |args| <= 6 then |args| else 0;
            && (o.status == Threw <==> exists k :: Bad(k, lookup(k)))
            && (o.status == Parsed <==>
                  && (forall k :: !Bad(k, lookup(k)))
                  && (forall j :: 0 <= j < |args| && args[j] != "" ==> args[j][0] != '-') && |args| <= 7
                  && NumbersOk(args, used))
            && (o.status == Parsed ==>
                  FieldOf(o.config, key) ==
                  Put(key, Positioned(key, args, used), Given(key, lookup(key), FieldOf(config, key))))
  {
    ParseIsReference(items, lookup, config);
    AssignedFields(0, lookup, config, key);
    var (threw, next) := Assigned(0, lookup, config);
    var args := Positionals(items);
    if 1 <= |args| <= 6 {
      FilledStatus(args, |args|, next);
      if Fill(args, |args|, next).status == Parsed { FilledFields(args, |args|, next, key); }
    }
    hide Assigned, WellFormed, Flatten, Positionals, ParseOf, FieldOf, AsNum, Fill, Place;
    assert Positioned(key, args, 0) == None;
  }

  /** A printed number is read back modulo 2^32, unless it does not fit 64 bits. */
  lemma {:induction false} NumberOfShown(n: nat)
    ensures AsNum(Show(n)) == if n < 0x1_0000_0000_0000_0000 then Some(n % 0x1_0000_0000) else None
  {
    ShownHead(n, "");
    assert Show(n) + "" == Show(n);
    hide Show, Value, Digits, Trimmed, AllDigits;
  }

  /** Exactly seven positional arguments are accepted like none at all; more are rejected. */
  lemma {:induction false} SevenAreIgnored(items: seq<Item>, lookup: Key -> Option<string>, config: Config)
    requires WellFormed(items) && forall key :: lookup(key) == Lookup(items, key)
    requires forall k :: 0 <= k < |Positionals(items)| ==> !StartsWithDash(Positionals(items)[k])
    ensures |Positionals(items)| == 7 ==> ParseOf(Flatten(items), config) == Reference(lookup, [], config)
    ensures |Positionals(items)| > 7 ==> ParseOf(Flatten(items), config).status != Parsed
  {
    ParseIsReference(items, lookup, config);
    hide Assigned, WellFormed, Flatten, Positionals, ParseOf, Fill;
  }

  /** An option that has been looked for is found again only if it was given twice. */
  lemma {:induction false} NoDashLeft(args: Args, config: Config)
    requires ParseOf(args, config).status.Parsed?
    ensures var left := Named(0, args, config).args;
            && HELP !in args && |left| <= 7
            && (forall key :: Name(key) !in left)
            && (forall key :: Name(key) in args ==> |left| + 2 <= |args|)
  {
    hide Name, Named, Fill;
    var scan := Named(0, args, config);
    LeftOver(0, args, config);
    forall key ensures Name(key) !in scan.args {
      NameHasDash(key);
      assert forall k :: 0 <= k < |scan.args| ==> !StartsWithDash(scan.args[k]);
    }
  }

  lemma {:induction false} NameHasDash(key: Key)
    ensures StartsWithDash(Name(key))
  {
  }

  lemma {:induction false} FoundShrinks(args: Args, name: string)
    requires GetArg(args, name).Found?
    ensures |GetArg(args, name).rest| + 2 == |args|
  {
  }

  lemma {:induction false} LeftOver(i: nat, args: Args, config: Config)
    requires !Named(i, args, config).threw
    ensures var left := Named(i, args, config).args;
            left == args || |left| + 2 <= |args|
    decreases OPTIONS - i
  {
    hide Name, AssignNonEmpty, IndexOf, GetArg, KeyAt;
    if i < OPTIONS {
      match GetArg(args, Name(KeyAt(i)))
      case Absent => LeftOver(i + 1, args, config);
      case Found(value, rest) =>
        FoundShrinks(args, Name(KeyAt(i)));
        LeftOver(i + 1, rest, AssignNonEmpty(KeyAt(i), value, config).value);
      case Missing =>
    }
  }
}
