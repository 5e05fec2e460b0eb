/** Numbers heard in a transcript, as words or as digits: packages/evaluation/comparators.py, lines 54-185. */
module SpokenNumbers {
  import opened Wrappers
  import opened Sorting

  type Digit = d: nat | d <= 9

  /** A quantity is a whole number and the digits after its point. */
  datatype Amount = Amount(whole: nat, fraction: seq<Digit>)

  /** A run of letters, by its place in the vocabulary, or digits with an optional fraction. */
  datatype Token =
    | Unit(n: nat) | Ten(n: nat) | Scale(n: nat) | Marker | And | Other
    | Literal(whole: seq<Digit>, fraction: seq<Digit>)

  function Classify(text: string): Token {
    match text
    case "zero" => Unit(0)
    case "oh" => Unit(0)
    case "one" => Unit(1)
    case "two" => Unit(2)
    case "three" => Unit(3)
    case "four" => Unit(4)
    case "five" => Unit(5)
    case "six" => Unit(6)
    case "seven" => Unit(7)
    case "eight" => Unit(8)
    case "nine" => Unit(9)
    case "ten" => Unit(10)
    case "eleven" => Unit(11)
    case "twelve" => Unit(12)
    case "thirteen" => Unit(13)
    case "fourteen" => Unit(14)
    case "fifteen" => Unit(15)
    case "sixteen" => Unit(16)
    case "seventeen" => Unit(17)
    case "eighteen" => Unit(18)
    case "nineteen" => Unit(19)
    case "twenty" => Ten(20)
    case "thirty" => Ten(30)
    case "forty" => Ten(40)
    case "fourty" => Ten(40)
    case "fifty" => Ten(50)
    case "sixty" => Ten(60)
    case "seventy" => Ten(70)
    case "eighty" => Ten(80)
    case "ninety" => Ten(90)
    case "hundred" => Scale(100)
    case "thousand" => Scale(1000)
    case "point" => Marker
    case "dot" => Marker
    case "and" => And
    case _ => Other
  }

  function Name(t: Token): string {
    match t
    case Unit(n) => UnitName(n)
    case Ten(n) => TenName(n)
    case Scale(n) => if n == 100 then "hundred" else "thousand"
    case Marker => "point"
    case And => "and"
    case _ => "other"
  }

  const UNIT_NAMES := ["zero", "one", "two", "three", "four", "five", "six", "seven", "eight", "nine", "ten",
    "eleven", "twelve", "thirteen", "fourteen", "fifteen", "sixteen", "seventeen", "eighteen", "nineteen"]

  function UnitName(n: nat): string { if n < |UNIT_NAMES| then UNIT_NAMES[n] else "other" }

  function TenName(n: nat): string {
    match n
    case 20 => "twenty"
    case 30 => "thirty"
    case 40 => "forty"
    case 50 => "fifty"
    case 60 => "sixty"
    case 70 => "seventy"
    case 80 => "eighty"
    case 90 => "ninety"
    case _ => "other"
  }

  predicate InVocabulary(t: Token) {
    match t
    case Unit(n) => n <= 19
    case Ten(n) => n in {20, 30, 40, 50, 60, 70, 80, 90}
    case Scale(n) => n in {100, 1000}
    case Marker => true
    case And => true
    case _ => false
  }

  lemma NamesAreRead(t: Token)
    requires InVocabulary(t)
    ensures Classify(Name(t)) == t
  {
  }

  // ---------------------------------------------------------------- whole numbers

  datatype Sum = Sum(total: nat, current: nat, consumed: bool)

  const NOTHING := Sum(0, 0, false)

  function Feed(sum: Sum, word: Token): Option<Sum> {
    match word
    case And => Some(sum)
    case Unit(n) => Some(Sum(sum.total, sum.current + n, true))
    case Ten(n) => Some(Sum(sum.total, sum.current + n, true))
    case Scale(n) =>
      var current := if sum.current == 0 then 1 else sum.current;
      if n == 100 then Some(Sum(sum.total, current * n, true)) else Some(Sum(sum.total + current * n, 0, true))
    case _ => None
  }

  function Reads(sum: Sum, words: seq<Token>): Option<Sum>
    decreases |words|
  {
    if words == [] then Some(sum)
    else
      match Feed(sum, words[0])
      case Some(next) => Reads(next, words[1..])
      case None => None
  }

  function Integer(words: seq<Token>): Option<nat> {
    match Reads(NOTHING, words)
    case Some(sum) => if sum.consumed then Some(sum.total + sum.current) else None
    case None => None
  }

  method WordsToInteger(words: seq<Token>) returns (value: Option<nat>)
    ensures value == Integer(words)
  {
    if words == [] { return None; }
    var total: nat, current: nat, consumed := 0, 0, false;
    for i := 0 to |words|
      invariant Reads(NOTHING, words) == Reads(Sum(total, current, consumed), words[i..])
    {
      OneWord(Sum(total, current, consumed), words, i);
      match words[i]
      case And =>
      case Unit(n) => current, consumed := current + n, true;
      case Ten(n) => current, consumed := current + n, true;
      case Scale(n) =>
        if current == 0 { current := 1; }
        if n == 100 {
          current := current * n;
        } else {
          total, current := total + current * n, 0;
        }
        consumed := true;
      case _ => return None;
    }
    return if consumed then Some(total + current) else None;
  }

  lemma {:induction false} OneWord(sum: Sum, words: seq<Token>, i: nat)
    requires i < |words|
    ensures Reads(sum, words[i..])
         == match Feed(sum, words[i]) case Some(next) => Reads(next, words[i + 1..]) case None => None
  {
    assert words[i..][1..] == words[i + 1..];
  }

  // ---------------------------------------------------------------- fractions

  predicate IsFractionWord(word: Token) { (word.Unit? && word.n <= 9) || (word.Ten? && word.n <= 99) }

  /** How many leading words belong to the fraction. */
  function FractionLength(words: seq<Token>): (n: nat)
    ensures n <= |words|
  {
    if words == [] || !IsFractionWord(words[0]) then 0 else 1 + FractionLength(words[1..])
  }

  function WordDigits(word: Token): seq<Digit>
    requires IsFractionWord(word)
  {
    if word.Unit? then [word.n] else [word.n / 10, word.n % 10]
  }

  function FractionDigits(words: seq<Token>): seq<Digit> {
    if words == [] || !IsFractionWord(words[0]) then [] else WordDigits(words[0]) + FractionDigits(words[1..])
  }

  method SpokenFraction(words: seq<Token>) returns (digits: seq<Digit>, consumed: nat)
    ensures digits == FractionDigits(words) && consumed == FractionLength(words)
  {
    digits, consumed := [], 0;
    for i := 0 to |words|
      invariant consumed == i
      invariant FractionDigits(words) == digits + FractionDigits(words[i..])
      invariant FractionLength(words) == i + FractionLength(words[i..])
    {
      assert words[i..][1..] == words[i + 1..];
      if !IsFractionWord(words[i]) { break; }
      digits := digits + WordDigits(words[i]);
      consumed := consumed + 1;
    }
  }

  // ---------------------------------------------------------------- extraction

  predicate IsNumberWord(t: Token) { !t.Other? && !t.Literal? }

  function RunLength(tokens: seq<Token>): (n: nat)
    ensures n <= |tokens|
    ensures n < |tokens| ==> !IsNumberWord(tokens[n])
    ensures forall i :: 0 <= i < n ==> IsNumberWord(tokens[i])
  {
    if tokens == [] || !IsNumberWord(tokens[0]) then 0 else 1 + RunLength(tokens[1..])
  }

  /** The first fraction marker, or the length when there is none. */
  function MarkerIndex(run: seq<Token>): (n: nat)
    ensures n <= |run|
    ensures n < |run| ==> run[n].Marker?
    ensures forall i :: 0 <= i < n ==> !run[i].Marker?
  {
    if run == [] || run[0].Marker? then 0 else 1 + MarkerIndex(run[1..])
  }

  function DigitsValue(digits: seq<Digit>): nat {
    if digits == [] then 0 else 10 * DigitsValue(digits[..|digits| - 1]) + digits[|digits| - 1]
  }

  /** The tokens a digit form looks at after its point. */
  const TAIL := 6

  /** What one round of the token loop emits, and how far it moves. */
  datatype Round = Round(found: seq<Amount>, consumed: nat)

  function ReadLiteral(tokens: seq<Token>): (r: Round)
    requires tokens != [] && tokens[0].Literal?
    ensures 1 <= r.consumed <= |tokens|
  {
    var whole := DigitsValue(tokens[0].whole);
    if tokens[0].fraction == [] && |tokens| > 1 && tokens[1].Marker? then
      var tail := tokens[2..if |tokens| < 2 + TAIL then |tokens| else 2 + TAIL];
      if tail != [] && tail[0].Literal? && tail[0].fraction == [] then
        Round([Amount(whole, tail[0].whole)], 3)
      else if FractionDigits(tail) != [] then
        Round([Amount(whole, FractionDigits(tail))], 2 + FractionLength(tail))
      else
        Round([Amount(whole, [])], 1)
    else
      Round([Amount(whole, tokens[0].fraction)], 1)
  }

  function ReadRun(run: seq<Token>): seq<Amount> {
    var marker := MarkerIndex(run);
    match Integer(run[..marker])
    case Some(whole) => [Amount(whole, if marker < |run| then FractionDigits(run[marker + 1..]) else [])]
    case None => []
  }

  predicate StartsRun(t: Token) { IsNumberWord(t) && !t.Marker? && !t.And? }

  function Read(tokens: seq<Token>): (r: Round)
    requires tokens != []
    ensures 1 <= r.consumed <= |tokens|
  {
    if tokens[0].Literal? then ReadLiteral(tokens)
    else if StartsRun(tokens[0]) then Round(ReadRun(tokens[..RunLength(tokens)]), RunLength(tokens))
    else Round([], 1)
  }

  function Extract(tokens: seq<Token>): seq<Amount> {
    if tokens == [] then [] else Read(tokens).found + Extract(tokens[Read(tokens).consumed..])
  }

  /** The token loop. Each round starts where the last one stopped, so no token is read twice. */
  method ExtractSpokenNumbers(tokens: seq<Token>) returns (results: seq<Amount>)
    ensures results == Extract(tokens)
  {
    results := [];
    var index := 0;
    while index < |tokens|
      invariant index <= |tokens|
      invariant Extract(tokens) == results + Extract(tokens[index..])
    {
      var found;
      found, index := ReadOnce(tokens, index);
      Regroup(results, found, Extract(tokens[index..]));
      results := results + found;
    }
  }

  method ReadOnce(tokens: seq<Token>, index: nat) returns (found: seq<Amount>, next: nat)
    requires index < |tokens|
    ensures index < next <= |tokens| && Extract(tokens[index..]) == found + Extract(tokens[next..])
  {
    if tokens[index].Literal? {
      var amount, consumed := ReadDigitForm(tokens, index);
      found, next := [amount], index + consumed;
    } else if StartsRun(tokens[index]) {
      found, next := ReadNumberRun(tokens, index);
    } else {
      found, next := [], index + 1;
    }
    OneRound(tokens[index..], Round(found, next - index), tokens[next..]);
  }

  method ReadDigitForm(tokens: seq<Token>, index: nat) returns (amount: Amount, consumed: nat)
    requires index < |tokens| && tokens[index].Literal?
    ensures Read(tokens[index..]) == Round([amount], consumed)
  {
    ghost var rest := tokens[index..];
    amount := Amount(DigitsValue(tokens[index].whole), tokens[index].fraction);
    consumed := 1;
    if amount.fraction == [] && index + 1 < |tokens| && tokens[index + 1].Marker? {
      var tail := tokens[index + 2..if index + 2 + TAIL < |tokens| then index + 2 + TAIL else |tokens|];
      assert tail == rest[2..if |rest| < 2 + TAIL then |rest| else 2 + TAIL];
      if tail != [] && tail[0].Literal? && tail[0].fraction == [] {
        amount, consumed := amount.(fraction := tail[0].whole), 3;
      } else {
        var digits, used := SpokenFraction(tail);
        if digits != [] {
          amount, consumed := amount.(fraction := digits), 2 + used;
        }
      }
    }
  }

  method ReadNumberRun(tokens: seq<Token>, index: nat) returns (found: seq<Amount>, runEnd: nat)
    requires index < |tokens| && StartsRun(tokens[index])
    ensures runEnd >= index && Read(tokens[index..]) == Round(found, runEnd - index)
  {
    runEnd := index;
    while runEnd < |tokens| && IsNumberWord(tokens[runEnd])
      invariant index <= runEnd <= |tokens|
      invariant RunLength(tokens[index..]) == runEnd - index + RunLength(tokens[runEnd..])
    {
      assert tokens[runEnd..][1..] == tokens[runEnd + 1..];
      runEnd := runEnd + 1;
    }
    var run := tokens[index..runEnd];
    assert run == tokens[index..][..RunLength(tokens[index..])];
    var marker := MarkerIndex(run);
    var whole := WordsToInteger(run[..marker]);
    found := [];
    if whole.Some? {
      var fraction := [];
      if marker < |run| {
        var consumed;
        fraction, consumed := SpokenFraction(run[marker + 1..]);
      }
      found := [Amount(whole.value, fraction)];
    }
  }

  // ---------------------------------------------------------------- proofs: whole numbers

  predicate NotAnd(t: Token) { !t.And? }

  lemma {:induction false} AndIsSilent(sum: Sum, words: seq<Token>)
    ensures Reads(sum, words) == Reads(sum, Filter(NotAnd, words))
    decreases |words|
  {
    if words != [] {
      FilterCons(NotAnd, words[0], words[1..]);
      assert words == [words[0]] + words[1..];
      var next := Feed(sum, words[0]);
      if next.Some? {
        AndIsSilent(next.value, words[1..]);
      }
      assert words[0].And? ==> Filter(NotAnd, words) == Filter(NotAnd, words[1..]);
    }
  }

  lemma {:induction false} ReadsInTurn(sum: Sum, a: seq<Token>, b: seq<Token>, next: Sum)
    requires Reads(sum, a) == Some(next)
    ensures Reads(sum, a + b) == Reads(next, b)
    decreases |a|
  {
    if a == [] {
      assert a + b == b;
    } else {
      assert (a + b)[1..] == a[1..] + b;
      ReadsInTurn(Feed(sum, a[0]).value, a[1..], b, next);
    }
  }

  /** The English spelling of a number below a hundred, a thousand, a million. */
  function SpellTens(n: nat): seq<Token>
    requires n < 100
  {
    if n < 20 then [Unit(n)]
    else [Ten(n - n % 10)] + if n % 10 == 0 then [] else [Unit(n % 10)]
  }

  function SpellHundreds(n: nat): seq<Token>
    requires n < 1000
  {
    if n < 100 then SpellTens(n)
    else [Unit(n / 100), Scale(100)] + if n % 100 == 0 then [] else SpellTens(n % 100)
  }

  const MILLION := 1_000_000

  function Spell(n: nat): seq<Token>
    requires n < MILLION
  {
    if n < 1000 then SpellHundreds(n)
    else SpellHundreds(n / 1000) + [Scale(1000)] + if n % 1000 == 0 then [] else SpellHundreds(n % 1000)
  }

  lemma {:induction false} ReadsOne(sum: Sum, a: Token)
    requires Feed(sum, a).Some?
    ensures Reads(sum, [a]) == Feed(sum, a)
  {
    assert [a][1..] == [];
  }

  lemma {:induction false} ReadsTwo(sum: Sum, a: Token, b: Token)
    requires Feed(sum, a).Some? && Feed(Feed(sum, a).value, b).Some?
    ensures Reads(sum, [a, b]) == Feed(Feed(sum, a).value, b)
  {
    assert [a, b][1..] == [b];
    ReadsOne(Feed(sum, a).value, b);
  }

  lemma {:induction false} TensAdd(sum: Sum, n: nat, words: seq<Token>)
    requires n < 100 && words == SpellTens(n)
    ensures Reads(sum, words) == Some(Sum(sum.total, sum.current + n, true))
  {
    if n < 20 || n % 10 == 0 {
      ReadsOne(sum, words[0]);
    } else {
      assert words == [Ten(n - n % 10), Unit(n % 10)];
      ReadsTwo(sum, Ten(n - n % 10), Unit(n % 10));
    }
  }

  lemma {:induction false} HundredsAdd(total: nat, consumed: bool, n: nat)
    requires n < 1000
    ensures Reads(Sum(total, 0, consumed), SpellHundreds(n)) == Some(Sum(total, n, true))
  {
    var sum := Sum(total, 0, consumed);
    if n < 100 {
      TensAdd(sum, n, SpellTens(n));
    } else {
      var head := [Unit(n / 100), Scale(100)];
      ReadsTwo(sum, Unit(n / 100), Scale(100));
      assert Reads(sum, head) == Some(Sum(total, n / 100 * 100, true));
      if n % 100 == 0 {
        assert SpellHundreds(n) == head;
      } else {
        ReadsInTurn(sum, head, SpellTens(n % 100), Sum(total, n / 100 * 100, true));
        TensAdd(Sum(total, n / 100 * 100, true), n % 100, SpellTens(n % 100));
      }
    }
  }

  /** Every number below a million is read back from its spelling. */
  lemma {:induction false} SpellingAdds(n: nat)
    requires n < MILLION
    ensures Integer(Spell(n)) == Some(n)
  {
    if n < 1000 {
      HundredsAdd(0, false, n);
    } else {
      var head := SpellHundreds(n / 1000);
      var thousands := Sum(n / 1000 * 1000, 0, true);
      HundredsAdd(0, false, n / 1000);
      ReadsInTurn(NOTHING, head, [Scale(1000)], Sum(0, n / 1000, true));
      assert Reads(Sum(0, n / 1000, true), [Scale(1000)]) == Some(thousands);
      if n % 1000 == 0 {
        assert Spell(n) == head + [Scale(1000)];
      } else {
        ReadsInTurn(NOTHING, head + [Scale(1000)], SpellHundreds(n % 1000), thousands);
        HundredsAdd(thousands.total, true, n % 1000);
      }
    }
  }

  /** So is the spelling with "and" put in anywhere. */
  lemma WordsRoundTrip(words: seq<Token>, n: nat)
    requires n < MILLION && Filter(NotAnd, words) == Spell(n)
    ensures Integer(words) == Some(n)
  {
    AndIsSilent(NOTHING, words);
    SpellingAdds(n);
  }

  // ---------------------------------------------------------------- proofs: fractions

  /** Digits said one word at a time. */
  predicate SaysDigits(words: seq<Token>, digits: seq<Digit>) {
    |words| == |digits| && forall i :: 0 <= i < |words| ==> words[i] == Unit(digits[i])
  }

  lemma {:induction false} DigitsAreRead(words: seq<Token>, rest: seq<Token>, digits: seq<Digit>)
    requires SaysDigits(words, digits)
    requires rest != [] ==> !IsFractionWord(rest[0])
    ensures FractionDigits(words + rest) == digits && FractionLength(words + rest) == |words|
    decreases |words|
  {
    if words == [] {
      assert words + rest == rest;
    } else {
      assert (words + rest)[1..] == words[1..] + rest;
      DigitsAreRead(words[1..], rest, digits[1..]);
      assert digits == [digits[0]] + digits[1..];
    }
  }

  function FractionValue(digits: seq<Digit>): (v: real)
    ensures 0.0 <= v < 1.0
  {
    if digits == [] then 0.0 else (digits[0] as real + FractionValue(digits[1..])) / 10.0
  }

  /** A tens word followed by a unit is meant as one two-digit group. */
  predicate IsPair(words: seq<Token>) {
    |words| > 1 && words[0].Ten? && words[1].Unit? && 1 <= words[1].n <= 9
  }

  /** The fraction as it is meant: "point twenty five" is .25. */
  function MeantDigits(words: seq<Token>): seq<Digit> {
    if words == [] || !IsFractionWord(words[0]) then []
    else if IsPair(words) then [words[0].n / 10, words[1].n] + MeantDigits(words[2..])
    else WordDigits(words[0]) + MeantDigits(words[1..])
  }

  predicate HoldsPair(words: seq<Token>) {
    words != [] && IsFractionWord(words[0]) && (IsPair(words) || HoldsPair(words[1..]))
  }

  lemma ValueOfTwo(a: Digit, b: Digit, rest: seq<Digit>)
    ensures FractionValue([a, b] + rest) == (a as real + (b as real + FractionValue(rest)) / 10.0) / 10.0
  {
    assert ([a, b] + rest)[1..] == [b] + rest && ([b] + rest)[1..] == rest;
  }

  /** A fraction is read too small exactly when a tens word is followed by a unit; otherwise it is read as meant. */
  lemma {:induction false} FractionUndershoots(words: seq<Token>)
    requires forall w :: w in words ==> w.Ten? ==> w.n % 10 == 0
    ensures FractionValue(FractionDigits(words)) <= FractionValue(MeantDigits(words))
    ensures FractionValue(FractionDigits(words)) == FractionValue(MeantDigits(words)) <==> !HoldsPair(words)
  {
    if words != [] && IsFractionWord(words[0]) {
      var tail := words[1..];
      if IsPair(words) {
        var rest := tail[1..];
        assert words[2..] == rest;
        assert FractionDigits(tail) == [words[1].n] + FractionDigits(rest);
        ValueOfTwo(words[0].n / 10, 0, FractionDigits(tail));
        ValueOfTwo(words[0].n / 10, words[1].n, MeantDigits(rest));
        assert FractionDigits(tail)[1..] == FractionDigits(rest);
      } else {
        FractionUndershoots(tail);
        if words[0].Ten? {
          ValueOfTwo(words[0].n / 10, 0, FractionDigits(tail));
          ValueOfTwo(words[0].n / 10, 0, MeantDigits(tail));
        } else {
          assert ([words[0].n] + FractionDigits(tail))[1..] == FractionDigits(tail);
          assert ([words[0].n] + MeantDigits(tail))[1..] == MeantDigits(tail);
        }
      }
    }
  }

  /** "Point twenty five": meant as .25, read as .205. */
  lemma PointTwentyFive()
    ensures FractionDigits(Lex(["twenty", "five"])) == [2, 0, 5] && MeantDigits(Lex(["twenty", "five"])) == [2, 5]
    ensures FractionValue([2, 0, 5]) == 0.205 && FractionValue([2, 5]) == 0.25
  {
    assert Lex(["twenty", "five"]) == [Ten(20), Unit(5)];
    assert [Ten(20), Unit(5)][1..] == [Unit(5)] && [Unit(5)][1..] == [] && [Ten(20), Unit(5)][2..] == [];
    assert FractionDigits([Unit(5)]) == [5];
    assert [2, 0, 5][1..] == [0, 5] && [0, 5][1..] == [5] && [2, 5][1..] == [5] && [5][1..] == [];
    assert FractionValue([5]) == 0.5;
  }

  // ---------------------------------------------------------------- proofs: extraction

  lemma {:induction false} FractionStops(words: seq<Token>, rest: seq<Token>)
    requires rest != [] ==> !IsFractionWord(rest[0])
    ensures FractionDigits(words + rest) == FractionDigits(words)
    ensures FractionLength(words + rest) == FractionLength(words)
  {
    if words == [] {
      assert words + rest == rest;
    } else if IsFractionWord(words[0]) {
      assert (words + rest)[1..] == words[1..] + rest;
      FractionStops(words[1..], rest);
    }
  }

  lemma {:induction false} RunStops(tokens: seq<Token>, rest: seq<Token>)
    requires rest != [] ==> !IsNumberWord(rest[0])
    ensures RunLength(tokens + rest) == RunLength(tokens)
  {
    if tokens == [] {
      assert tokens + rest == rest;
    } else if IsNumberWord(tokens[0]) {
      assert (tokens + rest)[1..] == tokens[1..] + rest;
      RunStops(tokens[1..], rest);
    }
  }

  function Tail(tokens: seq<Token>): seq<Token>
    requires |tokens| >= 2
  {
    tokens[2..if |tokens| < 2 + TAIL then |tokens| else 2 + TAIL]
  }

  lemma LiteralStops(tokens: seq<Token>, rest: seq<Token>)
    requires tokens != [] && tokens[0].Literal? && rest != [] && rest[0].Other?
    ensures ReadLiteral(tokens + rest) == ReadLiteral(tokens)
  {
    var all := tokens + rest;
    if |tokens| >= 2 {
      var tail := Tail(tokens);
      var more := Tail(all)[|tail|..];
      assert Tail(all) == tail + more;
      assert more != [] ==> more[0] == rest[0];
      FractionStops(tail, more);
    }
  }

  lemma {:induction false} ReadStops(tokens: seq<Token>, rest: seq<Token>)
    requires tokens != [] && rest != [] && rest[0].Other?
    ensures Read(tokens + rest) == Read(tokens)
  {
    if tokens[0].Literal? {
      LiteralStops(tokens, rest);
    } else {
      RunStops(tokens, rest);
      assert (tokens + rest)[..RunLength(tokens)] == tokens[..RunLength(tokens)];
    }
  }

  lemma {:induction false} OneRound(tokens: seq<Token>, round: Round, rest: seq<Token>)
    requires tokens != [] && Read(tokens) == round && tokens[round.consumed..] == rest
    ensures Extract(tokens) == round.found + Extract(rest)
  {
  }

  lemma OtherIsSkipped(rest: seq<Token>)
    ensures Extract([Other] + rest) == Extract(rest)
  {
    OneRound([Other] + rest, Round([], 1), rest);
    assert [] + Extract(rest) == Extract(rest);
  }

  lemma SkipWithin(a: seq<Token>, rest: seq<Token>, k: nat)
    requires k <= |a|
    ensures (a + rest)[k..] == a[k..] + rest
  {
  }

  lemma {:induction false} FirstRound(a: seq<Token>, rest: seq<Token>) returns (found: seq<Amount>, next: seq<Token>)
    requires a != [] && rest != [] && rest[0].Other?
    ensures |next| < |a| && Extract(a) == found + Extract(next) && Extract(a + rest) == found + Extract(next + rest)
  {
    ReadStops(a, rest);
    var round := Read(a);
    found, next := round.found, a[round.consumed..];
    OneRound(a, round, next);
    SkipWithin(a, rest, round.consumed);
    OneRound(a + rest, round, next + rest);
  }

  /** A word outside the vocabulary separates: what is on one side never changes what is read on the other. */
  lemma {:induction false} ExtractSplits(a: seq<Token>, b: seq<Token>)
    ensures Extract(a + ([Other] + b)) == Extract(a) + Extract(b)
    decreases |a|
  {
    OtherIsSkipped(b);
    if a == [] {
      assert a + ([Other] + b) == [Other] + b;
    } else {
      var found, next := FirstRound(a, [Other] + b);
      ExtractSplits(next, b);
      Regroup(found, Extract(next), Extract(b));
    }
  }

  lemma Regroup(a: seq<Amount>, b: seq<Amount>, c: seq<Amount>)
    ensures a + (b + c) == a + b + c
  {
  }

  predicate SpeaksWhole(words: seq<Token>, n: nat) {
    n < MILLION && Filter(NotAnd, words) == Spell(n) && words != [] && !words[0].And?
  }

  predicate SpeaksFraction(words: seq<Token>, digits: seq<Digit>) {
    if digits == [] then words == [] else words != [] && words[0].Marker? && SaysDigits(words[1..], digits)
  }

  /** A quantity in words, k of them for its whole part. */
  predicate Speaks(words: seq<Token>, k: nat, a: Amount) {
    0 < k <= |words| && SpeaksWhole(words[..k], a.whole) && SpeaksFraction(words[k..], a.fraction)
  }

  /** A quantity in digits, or in digits up to its point. */
  predicate Writes(tokens: seq<Token>, a: Amount) {
    && tokens != [] && tokens[0].Literal? && DigitsValue(tokens[0].whole) == a.whole
    && if tokens[0].fraction != [] then |tokens| == 1 && tokens[0].fraction == a.fraction
       else if a.fraction != [] && |tokens| == 3 && tokens[1].Marker? && tokens[2] == Literal(a.fraction, []) then true
       else SpeaksFraction(tokens[1..], a.fraction) && |a.fraction| <= TAIL
  }

  ghost predicate Utters(tokens: seq<Token>, a: Amount) { Writes(tokens, a) || exists k :: Speaks(tokens, k, a) }

  predicate Plain(t: Token) { t.Unit? || t.Ten? || t.Scale? }

  lemma WholeIsPlain(words: seq<Token>, n: nat)
    requires SpeaksWhole(words, n)
    ensures forall i :: 0 <= i < |words| ==> words[i].And? || Plain(words[i])
  {
    FilterIn(NotAnd, words);
    SpellIsKnown(n);
    forall i | 0 <= i < |words| ensures words[i].And? || Plain(words[i]) {
      assert words[i] in words;
    }
  }

  lemma {:induction false} SpokenIsRead(words: seq<Token>, k: nat, a: Amount)
    requires Speaks(words, k, a)
    ensures Extract(words) == [a]
  {
    SpokenIsRun(words, k, a);
    WordsRoundTrip(words[..k], a.whole);
    if k < |words| {
      assert words[k..][1..] == words[k + 1..] == words[k + 1..] + [];
      DigitsAreRead(words[k + 1..], [], a.fraction);
    }
    OneRound(words, Round([a], |words|), []);
  }

  lemma {:induction false} SpokenIsRun(words: seq<Token>, k: nat, a: Amount)
    requires Speaks(words, k, a)
    ensures RunLength(words) == |words| && words[..|words|] == words && MarkerIndex(words) == k && StartsRun(words[0])
  {
    WholeIsPlain(words[..k], a.whole);
    assert forall i :: 0 <= i < k ==> words[i] == words[..k][i];
    assert forall i :: k <= i < |words| ==> words[i] == words[k..][i - k];
    assert forall i :: k < i < |words| ==> words[i] == words[k..][1..][i - k - 1];
  }

  lemma {:induction false} WrittenIsRead(tokens: seq<Token>, a: Amount)
    requires Writes(tokens, a)
    ensures Extract(tokens) == [a]
  {
    if |tokens| > 1 && !tokens[2].Literal? {
      assert tokens[1..][1..] == tokens[2..] == tokens[2..] + [];
      assert Tail(tokens) == tokens[2..];
      DigitsAreRead(tokens[2..], [], a.fraction);
    }
    assert Read(tokens) == Round([a], |tokens|);
  }

  function Join(parts: seq<seq<Token>>, gaps: seq<nat>): seq<Token>
    requires |gaps| == |parts|
  {
    if parts == [] then [] else parts[0] + [Other] + Silence(gaps[0]) + Join(parts[1..], gaps[1..])
  }

  function Silence(n: nat): seq<Token> { seq(n, _ => Other) }

  lemma {:induction false} SilenceIsSilent(n: nat, rest: seq<Token>)
    ensures Extract(Silence(n) + rest) == Extract(rest)
  {
    if n == 0 {
      assert Silence(n) + rest == rest;
    } else {
      assert Silence(n) + rest == [Other] + (Silence(n - 1) + rest);
      OtherIsSkipped(Silence(n - 1) + rest);
      SilenceIsSilent(n - 1, rest);
    }
  }

  lemma UtteredIsRead(tokens: seq<Token>, a: Amount)
    requires Utters(tokens, a)
    ensures Extract(tokens) == [a]
  {
    if Writes(tokens, a) {
      WrittenIsRead(tokens, a);
    } else {
      var k :| Speaks(tokens, k, a);
      SpokenIsRead(tokens, k, a);
    }
  }

  lemma NextQuantity(parts: seq<seq<Token>>, gaps: seq<nat>, first: Amount)
    requires |parts| == |gaps| > 0 && Utters(parts[0], first)
    ensures Extract(Join(parts, gaps)) == [first] + Extract(Silence(gaps[0]) + Join(parts[1..], gaps[1..]))
  {
    var rest := Silence(gaps[0]) + Join(parts[1..], gaps[1..]);
    assert Join(parts, gaps) == parts[0] + ([Other] + rest);
    ExtractSplits(parts[0], rest);
    UtteredIsRead(parts[0], first);
  }

  /** A call in which quantities are said apart yields exactly those quantities, in order. */
  lemma {:induction false} EveryQuantityIsHeard(before: nat, parts: seq<seq<Token>>, gaps: seq<nat>, amounts: seq<Amount>)
    requires |parts| == |gaps| == |amounts|
    requires forall i :: 0 <= i < |parts| ==> Utters(parts[i], amounts[i])
    ensures Extract(Silence(before) + Join(parts, gaps)) == amounts
    decreases |parts|
  {
    SilenceIsSilent(before, Join(parts, gaps));
    if parts != [] {
      NextQuantity(parts, gaps, amounts[0]);
      EveryQuantityIsHeard(gaps[0], parts[1..], gaps[1..], amounts[1..]);
    }
  }

  // ---------------------------------------------------------------- where a digit form stops

  /** "28 point one two three four five six seven": a digit form keeps its spoken digits exactly when there are
      no more than six; the digits past the sixth are added up into a quantity of their own. */
  lemma {:induction false} LongFractionsBreak(whole: seq<Digit>, words: seq<Token>, digits: seq<Digit>)
    requires digits != [] && SaysDigits(words, digits)
    ensures Extract([Literal(whole, []), Marker] + words) == [Amount(DigitsValue(whole), digits)] <==> |digits| <= TAIL
    ensures |digits| > TAIL ==>
      Extract([Literal(whole, []), Marker] + words)
        == [Amount(DigitsValue(whole), digits[..TAIL]), Amount(Total(digits[TAIL..]), [])]
  {
    var tokens := [Literal(whole, []), Marker] + words;
    if |digits| <= TAIL {
      assert tokens[1..][1..] == words;
      WrittenIsRead(tokens, Amount(DigitsValue(whole), digits));
    } else {
      var tail, rest := words[..TAIL], words[TAIL..];
      assert Tail(tokens) == tail == tail + [];
      DigitsAreRead(tail, [], digits[..TAIL]);
      OneRound(tokens, Round([Amount(DigitsValue(whole), digits[..TAIL])], 2 + TAIL), rest);
      UnitsRun(rest, digits[TAIL..]);
    }
  }

  function Total(digits: seq<Digit>): nat { if digits == [] then 0 else digits[0] + Total(digits[1..]) }

  lemma {:induction false} UnitsAdd(sum: Sum, words: seq<Token>, digits: seq<Digit>)
    requires SaysDigits(words, digits)
    ensures Reads(sum, words)
         == Some(Sum(sum.total, sum.current + Total(digits), sum.consumed || words != []))
    decreases |words|
  {
    if words != [] {
      UnitsAdd(Feed(sum, words[0]).value, words[1..], digits[1..]);
    }
  }

  lemma {:induction false} UnitsRun(words: seq<Token>, digits: seq<Digit>)
    requires words != [] && SaysDigits(words, digits)
    ensures Extract(words) == [Amount(Total(digits), [])]
  {
    assert RunLength(words) == |words| == MarkerIndex(words) && words[..|words|] == words;
    UnitsAdd(NOTHING, words, digits);
    OneRound(words, Round([Amount(Total(digits), [])], |words|), []);
  }

  // ---------------------------------------------------------------- the printed form

  /** The words of a number below a million, as English writes them. */
  function SpellOut(n: nat): seq<string>
    requires n < MILLION
  {
    var tokens := Spell(n);
    seq(|tokens|, i requires 0 <= i < |tokens| => Name(tokens[i]))
  }

  function Lex(words: seq<string>): seq<Token> { seq(|words|, i requires 0 <= i < |words| => Classify(words[i])) }

  lemma {:induction false} SpelledOutIsRead(n: nat)
    requires n < MILLION
    ensures Integer(Lex(SpellOut(n))) == Some(n)
    ensures Extract(Lex(SpellOut(n))) == [Amount(n, [])]
  {
    NamesSpell(n);
    SpellingAdds(n);
    SpeltIsSpoken(n);
    SpokenIsRead(Spell(n), |Spell(n)|, Amount(n, []));
  }

  lemma {:induction false} NamesSpell(n: nat)
    requires n < MILLION
    ensures Lex(SpellOut(n)) == Spell(n)
  {
    SpellIsKnown(n);
    forall i | 0 <= i < |Spell(n)| ensures Classify(Name(Spell(n)[i])) == Spell(n)[i] {
      assert Spell(n)[i] in Spell(n);
      NamesAreRead(Spell(n)[i]);
    }
  }

  lemma {:induction false} SpeltIsSpoken(n: nat)
    requires n < MILLION
    ensures Speaks(Spell(n), |Spell(n)|, Amount(n, []))
  {
    SpellIsKnown(n);
    FilterAllPlain(Spell(n));
    assert Spell(n)[..|Spell(n)|] == Spell(n);
    assert Spell(n)[0] in Spell(n);
  }

  lemma SpellIsKnown(n: nat)
    requires n < MILLION
    ensures forall t :: t in Spell(n) ==> InVocabulary(t) && Plain(t)
  {
    HundredsAreKnown(n % 1000);
    HundredsAreKnown(n / 1000);
  }

  lemma HundredsAreKnown(n: nat)
    requires n < 1000
    ensures forall t :: t in SpellHundreds(n) ==> InVocabulary(t) && Plain(t)
  {
    TensAreKnown(n % 100);
  }

  lemma TensAreKnown(n: nat)
    requires n < 100
    ensures forall t :: t in SpellTens(n) ==> InVocabulary(t) && Plain(t)
  {
  }

  lemma {:induction false} FilterAllPlain(words: seq<Token>)
    requires forall t :: t in words ==> Plain(t)
    ensures Filter(NotAnd, words) == words
  {
    if words != [] {
      assert words[0] in words;
      FilterAllPlain(words[1..]);
      assert words == [words[0]] + words[1..];
    }
  }
}
