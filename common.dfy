/** Values shared by every part of the model: request members as Python's
    `dict` sees them, the failures the handlers answer with, and a few
    sequence operations the tables are built from. */
module Common {

  datatype Option<T> = None | Some(value: T)

  /** One member of a JSON request body: the key is missing, it holds
      `null`, or it holds a value. `data.get(k, d)` only defaults a
      missing key, so the three cases behave differently. */
  datatype Field<T> = Absent | Null | Present(value: T)

  /** `data.get(k)`: a missing key and `null` both read as `None`. */
  function Get<T>(f: Field<T>): Option<T>
  {
    if f.Present? then Some(f.value) else None
  }

  /** `data.get(k, default)`: the default replaces a missing key only. */
  function GetOr<T>(f: Field<T>, default: T): Option<T>
  {
    match f
    case Absent => Some(default)
    case Null => None
    case Present(v) => Some(v)
  }

  /** Python truthiness of a string member: present and not empty. */
  predicate Nonempty(f: Field<string>)
  {
    f.Present? && f.value != ""
  }

  /** Python truthiness of an integer member: present and not zero. */
  predicate Nonzero(f: Field<int>)
  {
    f.Present? && f.value != 0
  }

  /** Range of PostgreSQL's `INTEGER` column type (32-bit signed). */
  const MinInteger: int := -0x8000_0000
  const MaxInteger: int := 0x7fff_ffff

  predicate FitsInteger(x: int)
  {
    MinInteger <= x <= MaxInteger
  }

  /** The answers a handler gives instead of its normal result. */
  datatype Failure =
    | IncompleteData                      // 400 on donations and distributions
    | InsufficientBaskets(available: int) // 400, carries the stock that was available
    | FamilyNameRequired                  // 400 on family creation
    | CredentialsRequired                 // 400 on login
    | InvalidCredentials                  // 401 on login
    | TokenMissing                        // 401 from the guard
    | TokenMalformed                      // 401 from the guard
    | TokenRejected                       // 401 from the guard
    | FamilyNotFound                      // 404
    | StoreError(action: string)          // 500: an exception inside the connection block

  function Status(f: Failure): int
  {
    match f
    case IncompleteData | InsufficientBaskets(_) | FamilyNameRequired | CredentialsRequired => 400
    case InvalidCredentials | TokenMissing | TokenMalformed | TokenRejected => 401
    case FamilyNotFound => 404
    case StoreError(_) => 500
  }

  /** The `error` text of the response. A 500 reads "<action>: <exception
      text>"; the exception's own text is not modelled. */
  function Message(f: Failure): string
  {
    match f
    case IncompleteData => "Dados incompletos"
    case InsufficientBaskets(n) => "Cestas insuficientes. Disponível: " + IntText(n)
    case FamilyNameRequired => "Nome da família é obrigatório"
    case CredentialsRequired => "Username e password são obrigatórios"
    case InvalidCredentials => "Credenciais inválidas"
    case TokenMissing => "Token não fornecido"
    case TokenMalformed => "Token inválido"
    case TokenRejected => "Token inválido ou expirado"
    case FamilyNotFound => "Família não encontrada"
    case StoreError(action) => action + ": "
  }

  /** Decimal text of an integer, as Python's `str(int)` writes it. */
  function IntText(n: int): string
  {
    if n < 0 then "-" + NatText(-n) else NatText(n)
  }

  function NatText(n: nat): string
  {
    if n < 10 then [Digit(n)] else NatText(n / 10) + [Digit(n % 10)]
  }

  function Digit(d: nat): char
    requires d < 10
  {
    ('0' as int + d) as char
  }

  /** The value of a decimal digit. */
  function DigitValue(c: char): int
  {
    c as int - '0' as int
  }

  /** Reading decimal text back as a number, an optional `-` first. */
  function ParseNat(s: string): int
  {
    if s == [] then 0 else 10 * ParseNat(s[..|s| - 1]) + DigitValue(s[|s| - 1])
  }

  function ParseInt(s: string): int
  {
    if s != [] && s[0] == '-' then -ParseNat(s[1..]) else ParseNat(s)
  }

  /** The text of a number starts with a digit and reads back as that number. */
  lemma {:induction false} NatTextRoundTrip(n: nat)
    ensures |NatText(n)| > 0 && '0' <= NatText(n)[0] <= '9'
    ensures ParseNat(NatText(n)) == n
  {
    if n >= 10 {
      NatTextRoundTrip(n / 10);
      var s := NatText(n);
      assert s[..|s| - 1] == NatText(n / 10);
    }
  }

  /** `str(n)` of a Python integer reads back as `n`. */
  lemma IntTextRoundTrip(n: int)
    ensures ParseInt(IntText(n)) == n
  {
    if n < 0 {
      NatTextRoundTrip(-n);
      assert IntText(n)[1..] == NatText(-n);
    } else {
      NatTextRoundTrip(n);
    }
  }

  /** The refusal of a distribution shows the stock that was available:
      after its fixed prefix, the message reads back as that number. */
  lemma InsufficientShowsAvailable(available: int)
    ensures var m := Message(InsufficientBaskets(available));
      var prefix := "Cestas insuficientes. Disponível: ";
      && |m| > |prefix| && m[..|prefix|] == prefix
      && ParseInt(m[|prefix|..]) == available
  {
    var prefix := "Cestas insuficientes. Disponível: ";
    var m := Message(InsufficientBaskets(available));
    IntTextRoundTrip(available);
    if available < 0 {
      NatTextRoundTrip(-available);
    } else {
      NatTextRoundTrip(available);
    }
    assert m == prefix + IntText(available);
    assert m[|prefix|..] == IntText(available);
  }

  datatype Result<T> = Ok(value: T) | Err(failure: Failure)

  function Min(a: int, b: int): int
  {
    if a <= b then a else b
  }

  /** The elements of `s` that `keep` accepts, in their order in `s`
      (a `WHERE` clause, or a `DELETE` seen from the rows that stay). */
  function Filter<T>(s: seq<T>, keep: T -> bool): (r: seq<T>)
    ensures |r| <= |s|
  {
    if s == [] then []
    else Filter(s[..|s| - 1], keep) + (if keep(s[|s| - 1]) then [s[|s| - 1]] else [])
  }

  /** A row survives the filter exactly when it was there and is accepted. */
  lemma {:induction false} FilterMembers<T>(s: seq<T>, keep: T -> bool, x: T)
    ensures x in Filter(s, keep) <==> x in s && keep(x)
  {
    if s != [] {
      FilterMembers(s[..|s| - 1], keep, x);
      assert s == s[..|s| - 1] + [s[|s| - 1]];
    }
  }

  lemma {:induction false} FilterConcat<T>(a: seq<T>, b: seq<T>, keep: T -> bool)
    ensures Filter(a + b, keep) == Filter(a, keep) + Filter(b, keep)
    decreases |b|
  {
    if b != [] {
      var n := |b| - 1;
      assert (a + b)[..|a + b| - 1] == a + b[..n];
      assert (a + b)[|a + b| - 1] == b[n];
      FilterConcat(a, b[..n], keep);
    } else {
      assert a + b == a;
    }
  }

  /** Filtering keeps everything when every element is accepted. */
  lemma {:induction false} FilterAll<T>(s: seq<T>, keep: T -> bool)
    requires forall i :: 0 <= i < |s| ==> keep(s[i])
    ensures Filter(s, keep) == s
  {
    if s != [] {
      FilterAll(s[..|s| - 1], keep);
      assert s[..|s| - 1] + [s[|s| - 1]] == s;
    }
  }

  /** Filtering keeps nothing when no element is accepted. */
  lemma {:induction false} FilterNone<T>(s: seq<T>, keep: T -> bool)
    requires forall i :: 0 <= i < |s| ==> !keep(s[i])
    ensures Filter(s, keep) == []
  {
    if s != [] {
      FilterNone(s[..|s| - 1], keep);
    }
  }

  /** Filtering by a condition that implies an earlier filter's condition
      sees through the earlier filter. */
  lemma {:induction false} FilterFilter<T>(s: seq<T>, first: T -> bool, second: T -> bool)
    requires forall x :: second(x) ==> first(x)
    ensures Filter(Filter(s, first), second) == Filter(s, second)
  {
    if s != [] {
      var init, last := s[..|s| - 1], s[|s| - 1];
      var a := Filter(init, first);
      FilterFilter(init, first, second);
      if first(last) {
        assert Filter(s, first) == a + [last];
        assert (a + [last])[..|a|] == a;
      } else {
        assert Filter(s, first) == a;
      }
    }
  }

  /** A filter whose condition excludes the earlier filter's leaves nothing. */
  lemma {:induction false} FilterExclusive<T>(s: seq<T>, first: T -> bool, second: T -> bool)
    requires forall x :: second(x) ==> !first(x)
    ensures Filter(Filter(s, first), second) == []
  {
    var r := Filter(Filter(s, first), second);
    if r != [] {
      FilterMembers(Filter(s, first), second, r[0]);
      FilterMembers(s, first, r[0]);
    }
  }

  /** Keys strictly increase along the sequence (rows in insertion order,
      with ids or timestamps drawn from a counter). */
  ghost predicate Increasing<T>(s: seq<T>, key: T -> int)
  {
    forall i, j :: 0 <= i < j < |s| ==> key(s[i]) < key(s[j])
  }

  ghost predicate AllBelow<T>(s: seq<T>, key: T -> int, bound: int)
  {
    forall i :: 0 <= i < |s| ==> key(s[i]) < bound
  }

  lemma IncreasingAppend<T>(s: seq<T>, x: T, key: T -> int, bound: int)
    requires Increasing(s, key) && AllBelow(s, key, bound) && bound <= key(x)
    ensures Increasing(s + [x], key) && AllBelow(s + [x], key, key(x) + 1)
  {
    var t := s + [x];
    forall i, j | 0 <= i < j < |t| ensures key(t[i]) < key(t[j]) {
      if j == |s| {
        assert t[i] == s[i];
      } else {
        assert t[i] == s[i] && t[j] == s[j];
      }
    }
  }

  lemma {:induction false} FilterIncreasing<T>(s: seq<T>, keep: T -> bool, key: T -> int, bound: int)
    requires Increasing(s, key) && AllBelow(s, key, bound)
    ensures Increasing(Filter(s, keep), key) && AllBelow(Filter(s, keep), key, bound)
  {
    if s != [] {
      var init, last := s[..|s| - 1], s[|s| - 1];
      var f := Filter(init, keep);
      FilterIncreasing(init, keep, key, key(last));
      if keep(last) {
        IncreasingAppend(f, last, key, key(last));
      }
      if keep(last) {
        assert Filter(s, keep) == f + [last];
      } else {
        assert Filter(s, keep) == f;
      }
    }
  }

  /** The sequence read from its end: `ORDER BY created_at DESC` over rows
      stored in creation order. */
  function Reverse<T>(s: seq<T>): (r: seq<T>)
    ensures |r| == |s|
    ensures forall i :: 0 <= i < |s| ==> r[i] == s[|s| - 1 - i]
  {
    if s == [] then [] else [s[|s| - 1]] + Reverse(s[..|s| - 1])
  }

  /** Reversing a sequence whose keys increase yields one whose keys
      strictly decrease, holding the same elements. */
  lemma ReverseDecreasing<T>(s: seq<T>, key: T -> int)
    requires Increasing(s, key)
    ensures forall i, j :: 0 <= i < j < |s| ==> key(Reverse(s)[i]) > key(Reverse(s)[j])
    ensures multiset(Reverse(s)) == multiset(s)
  {
    ReverseSameElements(s);
  }

  lemma {:induction false} ReverseSameElements<T>(s: seq<T>)
    ensures multiset(Reverse(s)) == multiset(s)
  {
    if s != [] {
      var init := s[..|s| - 1];
      ReverseSameElements(init);
      assert s == init + [s[|s| - 1]];
    }
  }

  /** Sum of `amount` over the rows: `COALESCE(SUM(col), 0)`. */
  function SumOf<T>(s: seq<T>, amount: T -> int): int
  {
    if s == [] then 0 else SumOf(s[..|s| - 1], amount) + amount(s[|s| - 1])
  }

  lemma SumOfAppend<T>(s: seq<T>, x: T, amount: T -> int)
    ensures SumOf(s + [x], amount) == SumOf(s, amount) + amount(x)
  {
    assert (s + [x])[..|s|] == s;
  }

  lemma {:induction false} SumOfNonNegative<T>(s: seq<T>, amount: T -> int)
    requires forall i :: 0 <= i < |s| ==> amount(s[i]) >= 0
    ensures SumOf(s, amount) >= 0
  {
    if s != [] {
      SumOfNonNegative(s[..|s| - 1], amount);
    }
  }

  /** Splitting the rows by a condition splits their sum. */
  lemma {:induction false} SumOfSplit<T>(s: seq<T>, amount: T -> int, keep: T -> bool, drop: T -> bool)
    requires forall x :: drop(x) == !keep(x)
    ensures SumOf(s, amount) == SumOf(Filter(s, keep), amount) + SumOf(Filter(s, drop), amount)
  {
    if s != [] {
      var init, last := s[..|s| - 1], s[|s| - 1];
      SumOfSplit(init, amount, keep, drop);
      var k, d := Filter(init, keep), Filter(init, drop);
      if keep(last) {
        assert Filter(s, keep) == k + [last] && Filter(s, drop) == d;
        SumOfAppend(k, last, amount);
      } else {
        assert Filter(s, keep) == k && Filter(s, drop) == d + [last];
        SumOfAppend(d, last, amount);
      }
    }
  }
}
