/** User ids and logins that the bot makes up by itself. */
module UserIds {

  datatype Option<+T> = None | Some(value: T)

  const PSEUDO_IDS := 9_000_000_000_000

  /** The user id made up for a teacher at the import, from the hash of the name. */
  function MadeUpId(hash: nat): (id: int)
    ensures -9_000_000_000_000 <= id <= -1 && (hash + id + 1) % 9_000_000_000_000 == 0
  {
    -(hash % PSEUDO_IDS) - 1
  }

  function DigitChar(d: nat): (c: char)
    requires d < 10
    ensures '0' <= c <= '9' && c as int == '0' as int + d
  {
    ('0' as int + d) as char
  }

  function Digits(n: nat): (s: string)
    ensures s != "" && (|s| == 1 <==> n < 10)
    ensures forall i | 0 <= i < |s| :: '0' <= s[i] <= '9'
  {
    if n < 10 then [DigitChar(n)] else Digits(n / 10) + [DigitChar(n % 10)]
  }

  lemma {:induction false} DigitsInjective(m: nat, n: nat)
    requires Digits(m) == Digits(n)
    ensures m == n
  {
    var s := Digits(m);
    if m >= 10 {
      assert Digits(m / 10) == s[..|s| - 1] == Digits(n / 10);
      DigitsInjective(m / 10, n / 10);
      assert DigitChar(m % 10) == s[|s| - 1] == DigitChar(n % 10);
    }
  }

  /** The number a text of digits stands for. */
  function NumberOf(s: string): int {
    if s == "" then 0 else 10 * NumberOf(s[..|s| - 1]) + (s[|s| - 1] as int - '0' as int)
  }

  /** Decimal notation, with no zero in front. */
  lemma {:induction false} DigitsInWords(n: nat)
    ensures NumberOf(Digits(n)) == n && (|Digits(n)| > 1 ==> Digits(n)[0] != '0')
  {
    if n >= 10 {
      DigitsInWords(n / 10);
      assert Digits(n)[..|Digits(n)| - 1] == Digits(n / 10);
    }
  }

  /** `id::TEXT`. */
  function IdText(id: int): string { if id < 0 then "-" + Digits(-id) else Digits(id) }

  const LOGIN_PREFIX := "teacher_"

  /** The login and the password that the import gives a teacher who has none. */
  function DefaultLogin(id: int): string { LOGIN_PREFIX + IdText(id) }

  lemma DefaultLoginInWords(id: int)
    ensures id >= 0 ==> exists digits :: DefaultLogin(id) == "teacher_" + digits && NumberOf(digits) == id
                                         && digits != "" && forall k | 0 <= k < |digits| :: '0' <= digits[k] <= '9'
    ensures id < 0 ==> exists digits :: DefaultLogin(id) == "teacher_-" + digits && NumberOf(digits) == -id
                                        && digits != "" && forall k | 0 <= k < |digits| :: '0' <= digits[k] <= '9'
  {
    var digits := Digits(if id < 0 then -id else id);
    DigitsInWords(if id < 0 then -id else id);
    assert DefaultLogin(id) == (if id < 0 then "teacher_-" else "teacher_") + digits;
  }

  /** No two rows have the same default login. */
  lemma DefaultLoginInjective(i: int, j: int)
    requires DefaultLogin(i) == DefaultLogin(j)
    ensures i == j
  {
    var a, b := IdText(i), IdText(j);
    assert a == DefaultLogin(i)[|LOGIN_PREFIX|..] && b == DefaultLogin(j)[|LOGIN_PREFIX|..];
    assert i < 0 <==> a[0] == '-';
    assert j < 0 <==> b[0] == '-';
    if i < 0 {
      assert Digits(-i) == a[1..] && Digits(-j) == b[1..];
      DigitsInjective(-i, -j);
    } else {
      DigitsInjective(i, j);
    }
  }

  /** `COALESCE(login, 'teacher_' || id::TEXT)`. */
  function OrElse(o: Option<string>, text: string): Option<string> { if o.Some? then o else Some(text) }
}
