/**
 The text of a test message: the publisher prints a word, its time stamp in nanoseconds
 and its message index, and the subscriber reads the three back from a stream.
 */
module MessageText {

  import opened Arith
  import opened Decimal
  import opened Wrappers

  const INT63: int := 0x8000_0000_0000_0000

  const WORD: string := "TestMessage"

  datatype Message = Message(word: string, sentTime: int, index: nat)

  function ShowSigned(n: int): string { if n < 0 then "-" + Show(-n) else Show(n) }

  function Print(sentTime: int, index: nat): string {
    WORD + " " + ShowSigned(sentTime) + " " + Show(index)
  }

  // ----- reading -----

  datatype Read<+T> = Failed | Read(value: T, rest: string)

  function UpToSpace(s: string): (r: string)
    ensures r <= s
  {
    if s != "" && !Space(s[0]) then [s[0]] + UpToSpace(s[1..]) else ""
  }

  function ReadWord(s: string): Read<string> {
    var t := Trimmed(s);
    var word := UpToSpace(t);
    if word == "" then Failed else Read(word, t[|word|..])
  }

  /** An optional sign and the digits after it; fails without digits. */
  function ReadNumber(s: string): Read<(bool, nat)> {
    var t := Trimmed(s);
    var signed := t != "" && t[0] in {'+', '-'};
    var u := if signed then t[1..] else t;
    var digits := Digits(u);
    if digits == "" then Failed else Read((signed && t[0] == '-', Value(digits)), u[|digits|..])
  }

  function ReadInt64(s: string): Read<int> {
    match ReadNumber(s)
    case Failed => Failed
    case Read((negative, magnitude), rest) =>
      var value: int := if negative then 0 - magnitude else magnitude;
      if -INT63 <= value < INT63 then Read(value, rest) else Failed
  }

  /** A negative number in range is read modulo 2^32. */
  function ReadUint32(s: string): Read<nat> {
    match ReadNumber(s)
    case Failed => Failed
    case Read((negative, value), rest) =>
      if value >= UINT32 then Failed else Read(if negative then (UINT32 - value) % UINT32 else value, rest)
  }

  function Parse(s: string): Option<Message> {
    match ReadWord(s)
    case Failed => None
    case Read(word, afterWord) =>
      match ReadInt64(afterWord)
      case Failed => None
      case Read(sentTime, afterTime) =>
        match ReadUint32(afterTime)
        case Failed => None
        case Read(index, _) => Some(Message(word, sentTime, index))
  }

  // ----- round trip -----

  lemma {:induction false} WordBeforeSpace(word: string, rest: string)
    requires forall i :: 0 <= i < |word| ==> !Space(word[i])
    ensures UpToSpace(word + " " + rest) == word
  {
    if word == "" {
      assert word + " " + rest == " " + rest;
    } else {
      WordBeforeSpace(word[1..], rest);
      assert (word + " " + rest)[1..] == word[1..] + " " + rest;
    }
  }

  lemma {:induction false} TrimOne(s: string)
    requires s != "" && !Space(s[0])
    ensures Trimmed(" " + s) == s && Trimmed(s) == s
  {
    assert (" " + s)[1..] == s;
  }

  lemma {:induction false} ReadsShown(n: nat, rest: string)
    requires rest == "" || !Digit(rest[0])
    ensures ReadNumber(" " + (Show(n) + rest)) == Read((false, n), rest)
  {
    var t := Show(n) + rest;
    ShownHead(n, rest);
    TrimOne(t);
    hide Show, Value, Digits, Trimmed, Space, Digit, AllDigits, ReadNumber;
    ReadsUnsigned(" " + t, t, Show(n), rest);
  }

  lemma {:induction false} ReadsUnsigned(s: string, t: string, digits: string, rest: string)
    requires Trimmed(s) == t && t != "" && t[0] != '+' && t[0] != '-'
    requires Digits(t) == digits != "" && t[|digits|..] == rest
    ensures ReadNumber(s) == Read((false, Value(digits)), rest)
  {
    hide Value, Digits, Trimmed;
  }

  lemma {:induction false} ReadsNegative(n: nat, rest: string)
    requires rest == "" || !Digit(rest[0])
    ensures ReadNumber(" " + (("-" + Show(n)) + rest)) == Read((true, n), rest)
  {
    var digits := Show(n);
    var s := ("-" + digits) + rest;
    TrimOne(s);
    DigitsOfShow(digits, rest);
    ValueOfShow(n);
    hide Show, Value, Digits, Trimmed, AllDigits, Space, Digit;
    DropSign(digits, rest);
  }

  lemma {:induction false} DropSign(digits: string, rest: string)
    ensures (("-" + digits) + rest)[1..] == digits + rest && (digits + rest)[|digits|..] == rest
  {
  }

  lemma {:induction false} SignedValue(s: string, negative: bool, magnitude: nat, rest: string)
    requires ReadNumber(s) == Read((negative, magnitude), rest)
    ensures var value: int := if negative then 0 - magnitude else magnitude;
            -INT63 <= value < INT63 ==> ReadInt64(s) == Read(value, rest)
  {
    hide ReadNumber;
  }

  lemma {:induction false} ReadsInt64(n: int, rest: string)
    requires -INT63 <= n < INT63 && (rest == "" || !Digit(rest[0]))
    ensures ReadInt64(" " + (ShowSigned(n) + rest)) == Read(n, rest)
  {
    hide ReadNumber, Show, ReadInt64;
    var s := " " + (ShowSigned(n) + rest);
    if n < 0 {
      ReadsNegative(-n, rest);
      SignedValue(s, true, -n, rest);
    } else {
      ReadsShown(n, rest);
      SignedValue(s, false, n, rest);
    }
  }

  lemma {:induction false} ReadsUint32(n: nat)
    requires n < UINT32
    ensures ReadUint32(" " + Show(n)) == Read(n, "")
  {
    ReadsShown(n, "");
    hide ReadNumber, Show;
    assert Show(n) + "" == Show(n);
  }

  lemma {:induction false} ReadsWord(rest: string)
    ensures ReadWord(WORD + (" " + rest)) == Read(WORD, " " + rest)
  {
    assert WORD + (" " + rest) == WORD + " " + rest;
    TrimWord(rest);
    WordBeforeSpace(WORD, rest);
    hide UpToSpace, Trimmed;
    assert (WORD + " " + rest)[|WORD|..] == " " + rest;
  }

  /** Every 64-bit time stamp and every 32-bit index is read back. */
  lemma {:induction false} RoundTrip(sentTime: int, index: nat)
    requires -0x8000_0000_0000_0000 <= sentTime < 0x8000_0000_0000_0000 && index < 0x1_0000_0000
    ensures Parse(Print(sentTime, index)) == Some(Message("TestMessage", sentTime, index))
  {
    var number := " " + Show(index);
    var rest := ShowSigned(sentTime) + number;
    ReadsWord(rest);
    ReadsInt64(sentTime, number);
    ReadsUint32(index);
    hide ReadWord, ReadInt64, ReadUint32, Show, ShowSigned, WORD, Parse;
    Associate(WORD, ShowSigned(sentTime), Show(index));
    ParseParts(Print(sentTime, index), WORD, " " + rest, sentTime, number, index, "");
  }

  lemma {:induction false} Associate(a: string, b: string, c: string)
    ensures a + " " + b + " " + c == a + (" " + (b + (" " + c)))
  {
  }

  lemma {:induction false} ParseParts(s: string, word: string, a: string, t: int, b: string, i: nat, c: string)
    requires ReadWord(s) == Read(word, a) && ReadInt64(a) == Read(t, b) && ReadUint32(b) == Read(i, c)
    ensures Parse(s) == Some(Message(word, t, i))
  {
    hide ReadWord, ReadInt64, ReadUint32;
  }

  lemma {:induction false} TrimWord(rest: string)
    ensures Trimmed(WORD + " " + rest) == WORD + " " + rest
  {
    assert (WORD + " " + rest)[0] == 'T';
  }

  /** So two messages never have the same text. */
  lemma {:induction false} PrintIsInjective(t: int, i: nat, u: int, j: nat)
    requires -INT63 <= t < INT63 && i < UINT32 && -INT63 <= u < INT63 && j < UINT32
    requires Print(t, i) == Print(u, j)
    ensures t == u && i == j
  {
    hide Print, Parse, WORD;
    RoundTrip(t, i);
    RoundTrip(u, j);
  }
}
