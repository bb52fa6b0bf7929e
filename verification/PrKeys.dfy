/**
 The key of a pull request and its printed form `{repository_id}#{number}`, which is the
 key of the Restate object that owns the pull request and the id of its projection row.
 */
module PrKeys {
  import opened Wrappers

  const U64_MAX: nat := 0xFFFF_FFFF_FFFF_FFFF

  type u64 = n: nat | n <= U64_MAX

  datatype PrKey = PrKey(repositoryId: u64, number: u64)

  predicate IsDigit(c: char) {
    '0' <= c <= '9'
  }

  predicate AllDigits(s: string) {
    forall i :: 0 <= i < |s| ==> IsDigit(s[i])
  }

  function DigitValue(c: char): nat
    requires IsDigit(c)
  {
    c as int - '0' as int
  }

  function DigitChar(d: nat): char
    requires d < 10
  {
    (d + '0' as int) as char
  }

  /** The number a run of decimal digits stands for. */
  function Value(s: string): nat
    requires AllDigits(s)
  {
    if s == [] then 0
    else Value(s[..|s| - 1]) * 10 + DigitValue(s[|s| - 1])
  }

  /** Display of an unsigned integer. */
  function Decimal(n: nat): string {
    if n < 10 then [DigitChar(n)] else Decimal(n / 10) + [DigitChar(n % 10)]
  }

  /** The checked multiply-and-add an unsigned 64-bit parse makes of its digits. */
  function Accumulate(acc: u64, s: string): Option<u64>
    decreases |s|
  {
    if s == [] then Some(acc)
    else if !IsDigit(s[0]) then None
    else if acc * 10 > U64_MAX then None
    else if acc * 10 + DigitValue(s[0]) > U64_MAX then None
    else Accumulate(acc * 10 + DigitValue(s[0]), s[1..])
  }

  function Unsigned(s: string): string {
    if s != [] && s[0] == '+' then s[1..] else s
  }

  /** `str::parse::<u64>`: an optional plus sign and at least one digit. */
  function ParseU64(s: string): Option<u64> {
    if Unsigned(s) == [] then None else Accumulate(0, Unsigned(s))
  }

  /** The index of the first `c` in `s`, or the length of `s`. */
  function IndexOf(s: string, c: char): (i: nat)
    ensures i <= |s|
    ensures i < |s| ==> s[i] == c
    ensures c !in s[..i]
  {
    if s == [] then 0
    else if s[0] == c then 0
    else
      var rest := IndexOf(s[1..], c);
      assert s[..1 + rest] == [s[0]] + s[1..][..rest];
      1 + rest
  }

  function Print(key: PrKey): string {
    Decimal(key.repositoryId) + "#" + Decimal(key.number)
  }

  function Parse(s: string): Option<PrKey> {
    var cut := IndexOf(s, '#');
    if cut == |s| then None
    else
      match (ParseU64(s[..cut]), ParseU64(s[cut + 1..]))
      case (Some(repositoryId), Some(number)) => Some(PrKey(repositoryId, number))
      case _ => None
  }

  /** `s` is a numeral for `n`: digits, after a plus sign or not, whose value is `n`. */
  ghost predicate Denotes(s: string, n: nat) {
    Unsigned(s) != [] && AllDigits(Unsigned(s)) && Value(Unsigned(s)) == n
  }

  /** The numerals `Decimal` prints: no sign, and no zero in front of another digit. */
  ghost predicate Canonical(s: string) {
    s != [] && AllDigits(s) && (s[0] == '0' ==> |s| == 1)
  }

  lemma {:induction false} ValueGrows(p: string, s: string)
    requires AllDigits(p + s) && AllDigits(p)
    ensures Value(p) <= Value(p + s)
  {
    if s == [] {
      assert p + s == p;
    } else {
      var shorter := s[..|s| - 1];
      assert (p + s)[..|p + s| - 1] == p + shorter;
      ValueGrows(p, shorter);
    }
  }

  /** The parse's overflow checks refuse exactly the digit runs whose value is too large. */
  lemma {:induction false} AccumulateIsValue(p: string, s: string)
    requires AllDigits(p) && Value(p) <= U64_MAX
    ensures Accumulate(Value(p), s)
         == if AllDigits(p + s) && Value(p + s) <= U64_MAX then Some(Value(p + s)) else None
    decreases |s|
  {
    if s == [] {
      assert p + s == p;
    } else if !IsDigit(s[0]) {
      assert (p + s)[|p|] == s[0];
    } else {
      var next := p + [s[0]];
      assert next[..|next| - 1] == p;
      assert Value(next) == Value(p) * 10 + DigitValue(s[0]);
      assert next + s[1..] == p + s;
      if Value(next) <= U64_MAX {
        AccumulateIsValue(next, s[1..]);
      } else if AllDigits(p + s) {
        ValueGrows(next, s[1..]);
      }
    }
  }

  lemma {:induction false} ParseU64Denotes(s: string, n: u64)
    ensures ParseU64(s) == Some(n) <==> Denotes(s, n)
  {
    AccumulateIsValue([], Unsigned(s));
    assert [] + Unsigned(s) == Unsigned(s);
  }

  lemma {:induction false} DecimalDenotes(n: nat)
    ensures Canonical(Decimal(n)) && Value(Decimal(n)) == n
    ensures 0 < n ==> Decimal(n)[0] != '0'
  {
    if n < 10 {
      assert Decimal(n)[..0] == [];
    } else {
      DecimalDenotes(n / 10);
      var s := Decimal(n);
      assert s[..|s| - 1] == Decimal(n / 10);
      assert s[0] == Decimal(n / 10)[0];
    }
  }

  lemma {:induction false} ValuePositive(s: string)
    requires s != [] && AllDigits(s) && s[0] != '0'
    ensures 0 < Value(s)
  {
    if |s| == 1 {
      assert s[..0] == [];
    } else {
      ValuePositive(s[..|s| - 1]);
    }
  }

  lemma {:induction false} CanonicalIsDecimal(s: string)
    requires Canonical(s)
    ensures Decimal(Value(s)) == s
  {
    var shorter := s[..|s| - 1];
    if |s| == 1 {
      assert shorter == [];
    } else {
      CanonicalIsDecimal(shorter);
      ValuePositive(shorter);
      assert s == shorter + [s[|s| - 1]];
    }
  }

  lemma {:induction false} HashSplits(left: string, right: string)
    requires '#' !in left
    ensures IndexOf(left + "#" + right, '#') == |left|
    ensures (left + "#" + right)[..|left|] == left
    ensures (left + "#" + right)[|left| + 1..] == right
  {
    var s := left + "#" + right;
    var before := s[..IndexOf(s, '#')];
    assert s[|left|] == '#';
    assert forall i :: 0 <= i < |left| ==> s[i] == left[i];
    assert forall i :: 0 <= i < |before| ==> before[i] == s[i];
  }

  lemma {:induction false} SplitParses(left: string, right: string, key: PrKey)
    requires '#' !in left && Denotes(left, key.repositoryId) && Denotes(right, key.number)
    ensures Parse(left + "#" + right) == Some(key)
  {
    HashSplits(left, right);
    ParseU64Denotes(left, key.repositoryId);
    ParseU64Denotes(right, key.number);
  }

  lemma {:induction false} ParsedSplits(s: string, key: PrKey)
    requires Parse(s) == Some(key)
    ensures var cut := IndexOf(s, '#');
      && cut < |s| && s == s[..cut] + "#" + s[cut + 1..]
      && Denotes(s[..cut], key.repositoryId) && Denotes(s[cut + 1..], key.number)
  {
    var cut := IndexOf(s, '#');
    Rejoins(s, cut);
    ParseU64Denotes(s[..cut], key.repositoryId);
    ParseU64Denotes(s[cut + 1..], key.number);
  }

  lemma {:induction false} Rejoins(s: string, cut: nat)
    requires cut < |s|
    ensures s == s[..cut] + [s[cut]] + s[cut + 1..]
  {
  }

  /** Parsing finds a key exactly in two numerals with one `#` between them. */
  lemma {:induction false} ParseExact(s: string, key: PrKey)
    ensures Parse(s) == Some(key)
       <==> exists left, right :: s == left + "#" + right && '#' !in left
                             && Denotes(left, key.repositoryId) && Denotes(right, key.number)
  {
    if Parse(s) == Some(key) {
      ParsedSplits(s, key);
    }
    forall left, right | s == left + "#" + right && '#' !in left
                      && Denotes(left, key.repositoryId) && Denotes(right, key.number)
      ensures Parse(s) == Some(key)
    {
      SplitParses(left, right, key);
    }
  }

  lemma {:induction false} NumeralHasNoHash(s: string)
    requires AllDigits(Unsigned(s))
    ensures '#' !in s
  {
    forall i | 0 <= i < |s|
      ensures s[i] != '#'
    {
      if s[0] == '+' && 0 < i {
        assert s[i] == Unsigned(s)[i - 1];
      }
    }
  }

  lemma {:induction false} PrintParses(key: PrKey)
    ensures Parse(Print(key)) == Some(key)
  {
    var left, right := Decimal(key.repositoryId), Decimal(key.number);
    DecimalDenotes(key.repositoryId);
    DecimalDenotes(key.number);
    NumeralHasNoHash(left);
    HashSplits(left, right);
    ParseU64Denotes(left, key.repositoryId);
    ParseU64Denotes(right, key.number);
  }

  lemma {:induction false} PrintInjective(a: PrKey, b: PrKey)
    ensures Print(a) == Print(b) ==> a == b
  {
    PrintParses(a);
    PrintParses(b);
  }

  lemma {:induction false} PrintSplits(key: PrKey)
    ensures var s := Print(key); var cut := IndexOf(s, '#');
            cut < |s| && s[..cut] == Decimal(key.repositoryId) && s[cut + 1..] == Decimal(key.number)
  {
    DecimalDenotes(key.repositoryId);
    NumeralHasNoHash(Decimal(key.repositoryId));
    HashSplits(Decimal(key.repositoryId), Decimal(key.number));
  }

  lemma {:induction false} CanonicalNumeral(s: string, n: u64)
    requires ParseU64(s) == Some(n)
    ensures Canonical(s) <==> s == Decimal(n)
  {
    ParseU64Denotes(s, n);
    DecimalDenotes(n);
    if Canonical(s) {
      CanonicalIsDecimal(s);
    }
  }

  /**
   Parsing is not injective: `+1#02` and `1#2` are one key. A text is the printed form of
   the key it parses to exactly when both its parts are canonical, so two spellings of one
   key are told apart by looking for a sign or a leading zero.
   */
  lemma {:induction false} ReprintsIffCanonical(left: string, right: string, key: PrKey)
    requires '#' !in left && Parse(left + "#" + right) == Some(key)
    ensures Print(key) == left + "#" + right <==> Canonical(left) && Canonical(right)
  {
    HashSplits(left, right);
    CanonicalNumeral(left, key.repositoryId);
    CanonicalNumeral(right, key.number);
    if Print(key) == left + "#" + right {
      PrintSplits(key);
    }
  }

  /** Such a pair: a sign and a leading zero change the text and not the key. */
  lemma {:induction false} TwoTextsOneKey()
    ensures Parse("+1#02") == Parse("1#2") == Some(PrKey(1, 2)) && "+1#02" != "1#2"
  {
    assert Unsigned("+1") == "1" && Unsigned("02") == "02" && Unsigned("1") == "1" && Unsigned("2") == "2";
    assert Value("1") == 1 && Value("2") == 2;
    assert "02"[..1] == "0" && Value("0") == 0 && Value("02") == 2;
    SplitParses("+1", "02", PrKey(1, 2));
    SplitParses("1", "2", PrKey(1, 2));
    assert "+1" + "#" + "02" == "+1#02" && "1" + "#" + "2" == "1#2";
  }

  /** Not a numeral of the type: no digits, something that is no digit, or too large. */
  ghost predicate Unreadable(s: string) {
    Unsigned(s) == [] || !AllDigits(Unsigned(s)) || U64_MAX < Value(Unsigned(s))
  }

  lemma {:induction false} UnreadableIffRefused(s: string)
    ensures Unreadable(s) <==> ParseU64(s) == None
  {
    AccumulateIsValue([], Unsigned(s));
    assert [] + Unsigned(s) == Unsigned(s);
  }

  lemma {:induction false} SplitRefused(left: string, right: string)
    requires '#' !in left
    ensures Parse(left + "#" + right) == None <==> Unreadable(left) || Unreadable(right)
  {
    HashSplits(left, right);
    UnreadableIffRefused(left);
    UnreadableIffRefused(right);
  }

  /** What is refused: no `#`, or a part on either side of the first one that is unreadable. */
  lemma {:induction false} RefusedExactly(s: string)
    ensures var cut := IndexOf(s, '#');
            Parse(s) == None <==> cut == |s| || Unreadable(s[..cut]) || Unreadable(s[cut + 1..])
    ensures IndexOf(s, '#') == |s| <==> '#' !in s
  {
    var cut := IndexOf(s, '#');
    if cut < |s| {
      UnreadableIffRefused(s[..cut]);
      UnreadableIffRefused(s[cut + 1..]);
    } else {
      assert s[..cut] == s;
    }
  }

  /** A second `#` makes the part after the first one unreadable. */
  lemma {:induction false} SecondHashRefused(left: string, right: string)
    requires '#' !in left && '#' in right
    ensures Parse(left + "#" + right) == None
  {
    SplitRefused(left, right);
    if AllDigits(Unsigned(right)) {
      NumeralHasNoHash(right);
    }
  }
}
