/**
 What the subscriber's stream makes of any text: exactly the texts that spell a word, a
 64-bit time and a 32-bit index, one after the other, are read.
 */
module MessageReading {
  import opened Arith
  import opened Decimal
  import opened Wrappers
  import opened Numerals
  import opened MessageText

  predicate Blank(c: char) { c == ' ' || 9 <= c as int <= 13 }

  /** White space, and a word that ends at white space or with the text. */
  ghost predicate SpellsWord(s: string, word: string, rest: string) {
    && word != "" && (forall i :: 0 <= i < |word| ==> !Blank(word[i])) && (rest == "" || Blank(rest[0]))
    && exists white :: s == white + (word + rest) && White(white)
  }

  ghost predicate SpellsInt64(s: string, value: int, rest: string) {
    && -0x8000_0000_0000_0000 <= value < 0x8000_0000_0000_0000
    && exists white, sign, z: nat, n: nat ::
         Spells(s, white, sign, z, n, rest) && value == if sign == "-" then 0 - n else n
  }

  /** A minus sign is allowed, and negates modulo 2^32. */
  ghost predicate SpellsUint32(s: string, value: nat, rest: string) {
    exists white, sign, z: nat, n: nat :: Spells(s, white, sign, z, n, rest) && n < 0x1_0000_0000
                                && value == if sign == "-" && n > 0 then 0x1_0000_0000 - n else n
  }

  ghost predicate SpellsMessage(s: string, m: Message) {
    exists afterWord, afterTime, rest ::
      && SpellsWord(s, m.word, afterWord) && SpellsInt64(afterWord, m.sentTime, afterTime)
      && SpellsUint32(afterTime, m.index, rest)
  }

  // ----- words -----

  lemma {:induction false} WordStops(word: string, rest: string)
    requires (forall i :: 0 <= i < |word| ==> !Blank(word[i])) && (rest == "" || Blank(rest[0]))
    ensures UpToSpace(word + rest) == word
  {
    if word == "" {
      assert word + rest == rest;
    } else {
      WordStops(word[1..], rest);
      assert (word + rest)[1..] == word[1..] + rest;
    }
  }

  lemma {:induction false} WordTaken(t: string)
    ensures var word := UpToSpace(t); var rest := t[|word|..];
            && t == word + rest && (forall i :: 0 <= i < |word| ==> !Blank(word[i])) && (rest == "" || Blank(rest[0]))
  {
    if t != "" && !Space(t[0]) {
      WordTaken(t[1..]);
      assert UpToSpace(t) == [t[0]] + UpToSpace(t[1..]);
      assert t[|UpToSpace(t)|..] == t[1..][|UpToSpace(t[1..])|..];
    }
  }

  lemma {:induction false} WordIff(s: string, word: string, rest: string)
    ensures ReadWord(s) == Read(word, rest) <==> SpellsWord(s, word, rest)
  {
    if ReadWord(s) == Read(word, rest) {
      var white := LeadingWhite(s);
      WordTaken(Trimmed(s));
      assert s == white + (word + rest);
    }
    if SpellsWord(s, word, rest) {
      var white :| s == white + (word + rest) && White(white);
      assert (word + rest)[0] == word[0];
      TrimWhite(white, word + rest);
      WordStops(word, rest);
      assert (word + rest)[|word|..] == rest;
    }
  }

  // ----- numbers -----

  lemma {:induction false} FindsDigits(s: string, sign: string, digits: string, rest: string)
    requires Trimmed(s) == sign + (digits + rest) && sign in {"", "+", "-"}
    requires digits != "" && AllDigits(digits) && !StartsWithDigit(rest)
    ensures ReadNumber(s) == Read((sign == "-", Value(digits)), rest)
  {
    SignFound(Trimmed(s), sign, digits, rest);
    DigitsOfShow(digits, rest);
    hide Trimmed, Digits, Value, AllDigits, Digit, StartsWithDigit;
  }

  lemma {:induction false} NumberFound(s: string, white: string, sign: string, z: nat, n: nat, rest: string)
    requires Spells(s, white, sign, z, n, rest)
    ensures ReadNumber(s) == Read((sign == "-", n), rest)
  {
    var digits := Zeros(z) + Show(n);
    var t := sign + (digits + rest);
    ZerosValue(z, Show(n));
    ValueOfShow(n);
    hide Show, ReadNumber, Value, Trimmed;
    assert s == white + t && Digit(digits[0]);
    assert t[0] == if sign == "" then digits[0] else sign[0];
    TrimWhite(white, t);
    FindsDigits(s, sign, digits, rest);
  }

  lemma {:induction false} NumberParts(s: string) returns (sign: string, u: string)
    requires ReadNumber(s).Read?
    ensures Trimmed(s) == sign + u && sign in {"", "+", "-"} && Digits(u) != ""
    ensures ReadNumber(s) == Read((sign == "-", Value(Digits(u))), u[|Digits(u)|..])
  {
    hide Trimmed, Digits, Value;
    var t := Trimmed(s);
    if t != "" && t[0] in {'+', '-'} {
      sign, u := t[..1], t[1..];
      assert sign == [t[0]];
    } else {
      sign, u := "", t;
    }
    assert t == sign + u;
  }

  lemma {:induction false} NumberSpelled(s: string) returns (white: string, sign: string, z: nat)
    requires ReadNumber(s).Read?
    ensures Spells(s, white, sign, z, ReadNumber(s).value.1, ReadNumber(s).rest)
    ensures ReadNumber(s).value.0 == (sign == "-")
  {
    var u;
    sign, u := NumberParts(s);
    white := LeadingWhite(s);
    DigitsStop(u);
    hide ReadNumber, Trimmed, Value, Show, White, StartsWithDigit, Zeros;
    var digits := Digits(u);
    z := DigitsSpell(digits);
    var rest := u[|digits|..];
    hide Digits;
    Regroup(s, white, sign, Zeros(z) + Show(Value(digits)), rest, u);
  }

  lemma {:induction false} Int64Iff(s: string, value: int, rest: string)
    ensures ReadInt64(s) == Read(value, rest) <==> SpellsInt64(s, value, rest)
  {
    hide ReadNumber, Spells;
    if ReadInt64(s) == Read(value, rest) { var white, sign, z := NumberSpelled(s); }
    if SpellsInt64(s, value, rest) {
      var white, sign, z: nat, n: nat :|
        Spells(s, white, sign, z, n, rest) && value == if sign == "-" then 0 - n else n;
      NumberFound(s, white, sign, z, n, rest);
    }
  }

  lemma {:induction false} Uint32Iff(s: string, value: nat, rest: string)
    ensures ReadUint32(s) == Read(value, rest) <==> SpellsUint32(s, value, rest)
  {
    hide ReadNumber, Spells;
    if ReadUint32(s) == Read(value, rest) { var white, sign, z := NumberSpelled(s); }
    if SpellsUint32(s, value, rest) {
      var white, sign, z: nat, n: nat :| Spells(s, white, sign, z, n, rest) && n < 0x1_0000_0000
                               && value == if sign == "-" && n > 0 then 0x1_0000_0000 - n else n;
      NumberFound(s, white, sign, z, n, rest);
    }
  }

  /** For every text and every message: the text is read as the message if and only if it spells it. */
  lemma {:induction false} ParseIff(s: string, m: Message)
    ensures Parse(s) == Some(m) <==> SpellsMessage(s, m)
  {
    hide ReadWord, ReadInt64, ReadUint32, SpellsWord, SpellsInt64, SpellsUint32;
    if Parse(s) == Some(m) {
      var afterWord := ReadWord(s).rest;
      var afterTime := ReadInt64(afterWord).rest;
      WordIff(s, m.word, afterWord);
      Int64Iff(afterWord, m.sentTime, afterTime);
      Uint32Iff(afterTime, m.index, ReadUint32(afterTime).rest);
    }
    if SpellsMessage(s, m) {
      var afterWord, afterTime, rest :|
        && SpellsWord(s, m.word, afterWord) && SpellsInt64(afterWord, m.sentTime, afterTime)
        && SpellsUint32(afterTime, m.index, rest);
      WordIff(s, m.word, afterWord);
      Int64Iff(afterWord, m.sentTime, afterTime);
      Uint32Iff(afterTime, m.index, rest);
    }
  }
}
