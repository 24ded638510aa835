/** Laws that tie the evaluator of queries to the standard it follows. */
module SqlLaws {
  import opened Common
  import opened Sql
  import opened Encoding
  import opened ChangeLog

  /** False, unknown, true: the order in which AND takes the least and OR the greatest (section 8.12). */
  function Rank(t: Truth): int {
    match t
    case False => 0
    case Unknown => 1
    case True => 2
  }

  lemma KleeneLogic(a: Truth, b: Truth)
    ensures Rank(And3(a, b)) == if Rank(a) < Rank(b) then Rank(a) else Rank(b)
    ensures Rank(Or3(a, b)) == if Rank(a) < Rank(b) then Rank(b) else Rank(a)
    ensures Rank(Not3(a)) == 2 - Rank(a)
  {
  }

  /** v = r1 OR v = r2 OR .. */
  function EqualsSome(v: Value, rows: seq<Value>): Truth {
    if rows == [] then False else Or3(Compare(Equal, v, rows[0]), EqualsSome(v, rows[1..]))
  }

  /** The in predicate is that disjunction (section 8.4). */
  lemma {:induction false} InIsDisjunction(v: Value, rows: seq<Value>)
    ensures Membership(v, rows) == EqualsSome(v, rows)
  {
    if rows != [] {
      InIsDisjunction(v, rows[1..]);
      assert forall x :: x in rows <==> x == rows[0] || x in rows[1..];
    }
  }

  /** A comparison with NULL is unknown; any other is decided, and exactly one of <, = and > holds. */
  lemma ComparisonsDecide(a: Value, b: Value)
    ensures a.Null? || b.Null? ==> forall op :: Compare(op, a, b) == Unknown
    ensures !a.Null? && !b.Null? ==>
      && (Compare(Equal, a, b) == True <==> a == b)
      && (Compare(LessOrEqual, a, b) == Or3(Compare(Less, a, b), Compare(Equal, a, b)))
      && (Compare(GreaterOrEqual, a, b) == Not3(Compare(Less, a, b)))
      && (Compare(Greater, a, b) == Compare(Less, b, a))
      && (Compare(Greater, a, b) == Not3(Compare(LessOrEqual, a, b)))
  {
    if a.Text? && b.Text? {
      StrLessTotal(a.s, b.s);
      StrLessIrreflexive(a.s);
      if StrLess(a.s, b.s) && StrLess(b.s, a.s) {
        StrLessTransitive(a.s, b.s, a.s);
      }
    }
  }

  /** UNION keeps one of each. */
  lemma {:induction false} UnionShowsOnce(rows: seq<Value>)
    ensures Distinct(Deduplicate(rows))
  {
    if rows != [] {
      UnionShowsOnce(rows[1..]);
    }
  }

  // ---------------------------------------------------------------------------
  // Numbers in texts
  // ---------------------------------------------------------------------------

  lemma {:induction false} DigitsPrefixOf(digits: string, rest: string, acc: int)
    requires AllDigits(digits) && (rest == "" || !IsDigit(rest[0]))
    ensures DigitsPrefix(digits + rest, acc) == DigitsFrom(digits, acc)
  {
    var s := digits + rest;
    if digits == "" {
      assert s == rest;
    } else {
      assert s[0] == digits[0] && s[1..] == digits[1..] + rest;
      DigitsPrefixOf(digits[1..], rest, 10 * acc + (digits[0] as int - '0' as int));
    }
  }

  function DigitsFrom(digits: string, acc: int): int {
    if digits == "" then acc else DigitsFrom(digits[1..], 10 * acc + (digits[0] as int - '0' as int))
  }

  lemma {:induction false} DigitsFromSnoc(digits: string, last: char, acc: int)
    ensures DigitsFrom(digits + [last], acc) == 10 * DigitsFrom(digits, acc) + (last as int - '0' as int)
  {
    var s := digits + [last];
    if digits == "" {
      assert s[1..] == "";
    } else {
      assert s[0] == digits[0] && s[1..] == digits[1..] + [last];
      DigitsFromSnoc(digits[1..], last, 10 * acc + (digits[0] as int - '0' as int));
    }
  }

  lemma {:induction false} DigitsSpell(n: nat)
    ensures DigitsFrom(ToDecimal(n), 0) == n
  {
    if n >= 10 {
      DigitsSpell(n / 10);
      DigitsFromSnoc(ToDecimal(n / 10), DigitOf(n % 10), 0);
    } else {
      DigitsFromSnoc("", DigitOf(n), 0);
      assert "" + [DigitOf(n)] == ToDecimal(n);
    }
  }

  lemma CastOfDigits(digits: string, rest: string)
    requires digits != "" && AllDigits(digits) && (rest == "" || !IsDigit(rest[0]))
    ensures CastToInteger(digits + rest) == DigitsFrom(digits, 0)
  {
    assert (digits + rest)[0] == digits[0] && '0' <= digits[0] <= '9';
    DigitsPrefixOf(digits, rest, 0);
  }

  lemma CastOfNegative(s: string, digits: string, rest: string)
    requires digits != "" && AllDigits(digits) && (rest == "" || !IsDigit(rest[0]))
    requires s != "" && s[0] == '-' && s[1..] == digits + rest
    ensures CastToInteger(s) == -DigitsFrom(digits, 0)
  {
    DigitsPrefixOf(digits, rest, 0);
  }

  /** The digits of a number, after the sign if it is negative. */
  lemma DigitsOfNumber(n: int) returns (digits: string)
    ensures digits != "" && AllDigits(digits) && DigitsFrom(digits, 0) == if n < 0 then -n else n
    ensures if n < 0 then ToNumber(n) == "-" + digits else ToNumber(n) == digits
  {
    var k: nat := if n < 0 then -n else n;
    digits := ToDecimal(k);
    DecimalRoundTrip(k);
    DigitsSpell(k);
  }

  /** CAST reads the number a text starts with, whatever follows it. */
  lemma CastReadsNumbers(n: int, rest: string)
    requires rest == "" || !IsDigit(rest[0])
    ensures CastToInteger(ToNumber(n) + rest) == n
  {
    var digits := DigitsOfNumber(n);
    if n < 0 {
      SignedText(ToNumber(n), digits, rest);
      CastOfNegative(ToNumber(n) + rest, digits, rest);
    } else {
      CastOfDigits(digits, rest);
    }
  }

  lemma SignedText(s: string, digits: string, rest: string)
    requires s == "-" + digits
    ensures (s + rest)[0] == '-' && (s + rest)[1..] == digits + rest
  {
  }

  lemma DigitsSpellInteger(s: string, digits: string)
    requires digits != "" && AllDigits(digits) && (s == digits || s == "-" + digits)
    ensures SpellsInteger(s)
  {
    if s == digits {
      assert '0' <= s[0] <= '9';
    } else {
      assert s[0] == '-' && s[1..] == digits;
    }
  }

  /** A text that is just a number is a numeric literal. */
  lemma NumericLiteralMeans(n: int)
    ensures NumericLiteral(ToNumber(n)) == Int(n)
  {
    var digits := DigitsOfNumber(n);
    DigitsSpellInteger(ToNumber(n), digits);
    CastReadsNumbers(n, "");
    assert ToNumber(n) + "" == ToNumber(n);
  }

  /** A text that starts with no number is 0. */
  lemma CastOfOtherText(s: string)
    requires s == "" || (!IsDigit(s[0]) && s[0] != '-' && s[0] != '+' && s[0] != ' ')
    ensures CastToInteger(s) == 0
  {
  }
}
