/**
 * Shared vocabulary of the evaluations service: Java's `null` as `Option`,
 * the exceptions the services throw as `Error`, and the few `String`
 * operations the services rely on (substring search, lower-casing,
 * trimming, character replacement, decimal formatting of integers).
 */
module Common {

  datatype Option<+T> = None | Some(value: T)
  {
    function GetOrElse(default: T): T {
      if Some? then value else default
    }
  }

  /**
   * The exceptions the services raise, each with its message, and the two
   * failures of an upstream HTTP call that a service lets through unchanged.
   */
  datatype Error =
    | IllegalArgument(message: string)  // java.lang.IllegalArgumentException
    | IllegalState(message: string)     // java.lang.IllegalStateException
    | EntityNotFound(message: string)   // jakarta.persistence.EntityNotFoundException
    | Runtime(message: string)          // any other RuntimeException
    // org.springframework.web.client.HttpServerErrorException: a 5xx answer
    | UpstreamServerError(statusCode: int, responseBody: string)
    // org.springframework.web.client.ResourceAccessException: no answer at all
    | UpstreamUnreachable(reason: string, causeName: string, timedOut: bool)

  datatype Result<+T> = Ok(value: T) | Err(error: Error)
  {
    predicate IsFailure() { Err? }
    function PropagateFailure<U>(): Result<U>
      requires Err?
    {
      Err(error)
    }
    function Extract(): T
      requires Ok?
    {
      value
    }
  }

  /** Outcome of a call into an external service: it threw, or it returned a (nullable) body. */
  datatype CallOutcome<+T> = Failed | Returned(body: Option<T>)

  // ---------------------------------------------------------------- JSON

  /**
   * A JSON value as Jackson hands it to the service. Numbers are exact, in
   * hundredths; `JOther` is any value the service never inspects (a boolean).
   */
  datatype Json =
    | JNull
    | JNumber(hundredths: int)
    | JString(text: string)
    | JList(items: seq<Json>)
    | JObject(members: map<string, Json>)
    | JOther

  /** `map.get(key)`: a missing member reads as `null`. */
  function Member(members: map<string, Json>, key: string): (r: Json)
    ensures key !in members ==> r == JNull
    ensures key in members ==> r == members[key]
  {
    if key in members then members[key] else JNull
  }

  // ---------------------------------------------------------------- strings

  /** `s.contains(sub)`: `sub` occurs in `s` at some position. */
  predicate Contains(s: string, sub: string)
    decreases |s|
  {
    sub <= s || (|s| > 0 && Contains(s[1..], sub))
  }

  /** A substring of a string that contains `big` is a substring of anything containing `big`. */
  lemma {:induction false} ContainsTransitive(s: string, big: string, small: string)
    requires Contains(s, big) && Contains(big, small)
    ensures Contains(s, small)
    decreases |s| + |big|
  {
    if big <= s {
      if small <= big {
        assert small == s[..|small|];
      } else {
        ContainsTransitive(s[1..], big[1..], small);
      }
    } else {
      ContainsTransitive(s[1..], big, small);
    }
  }

  /** A string containing `sub` is at least as long as it. */
  lemma {:induction false} ContainsLength(s: string, sub: string)
    requires Contains(s, sub)
    ensures |sub| <= |s|
    decreases |s|
  {
    if !(sub <= s) {
      ContainsLength(s[1..], sub);
    }
  }

  /** `Character.toLowerCase` restricted to the characters the service's texts use. */
  function ToLowerChar(c: char): (r: char)
    ensures 'A' <= c <= 'Z' ==> r as int == c as int + 32
    ensures !('A' <= c <= 'Z') && !('À' <= c <= 'Þ') ==> r == c
  {
    if 'A' <= c <= 'Z' || ('À' <= c <= 'Þ' && c != '×') then
      (c as int + 32) as char
    else
      c
  }

  /** `String.toLowerCase()`, character by character. */
  function ToLower(s: string): (r: string)
    ensures |r| == |s|
    ensures forall i :: 0 <= i < |s| ==> r[i] == ToLowerChar(s[i])
  {
    seq(|s|, i requires 0 <= i < |s| => ToLowerChar(s[i]))
  }

  /** Characters `String.trim()` removes: every code point up to U+0020. */
  predicate IsTrimmable(c: char) {
    c <= ' '
  }

  function TrimStart(s: string): (r: string)
    ensures |r| <= |s| && r == s[|s| - |r|..]
    ensures r == [] || !IsTrimmable(r[0])
  {
    if |s| > 0 && IsTrimmable(s[0]) then TrimStart(s[1..]) else s
  }

  function TrimEnd(s: string): (r: string)
    ensures |r| <= |s| && r == s[..|r|]
    ensures r == [] || !IsTrimmable(r[|r| - 1])
  {
    if |s| > 0 && IsTrimmable(s[|s| - 1]) then TrimEnd(s[..|s| - 1]) else s
  }

  /** `String.trim()`: leading and trailing control characters and spaces removed. */
  function Trim(s: string): (r: string)
    ensures |r| <= |s|
    ensures r == [] || (!IsTrimmable(r[0]) && !IsTrimmable(r[|r| - 1]))
  {
    TrimEnd(TrimStart(s))
  }

  /** A string that starts with a printable character does not trim to nothing. */
  lemma TrimKeepsFirst(s: string)
    requires |s| > 0 && !IsTrimmable(s[0])
    ensures |Trim(s)| > 0 && Trim(s)[0] == s[0]
  {
    assert TrimStart(s) == s;
    var t := TrimEnd(s);
    if t == [] {
      TrimEndEmpty(s);
    }
  }

  /** `TrimEnd` yields nothing only when every character is trimmable. */
  lemma {:induction false} TrimEndEmpty(s: string)
    requires TrimEnd(s) == []
    ensures forall i :: 0 <= i < |s| ==> IsTrimmable(s[i])
  {
    if |s| > 0 {
      TrimEndEmpty(s[..|s| - 1]);
      assert forall i :: 0 <= i < |s| - 1 ==> s[i] == s[..|s| - 1][i];
    }
  }

  /** `s.replace(from, to)` for a single character. */
  function ReplaceChar(s: string, from: char, to: char): (r: string)
    ensures |r| == |s|
    ensures forall i :: 0 <= i < |r| ==> r[i] != from || from == to
    ensures forall i :: 0 <= i < |s| && s[i] != from ==> r[i] == s[i]
  {
    seq(|s|, i requires 0 <= i < |s| => if s[i] == from then to else s[i])
  }

  /** `String.join(sep, items)`. */
  function Join(sep: string, items: seq<string>): string {
    if |items| == 0 then ""
    else if |items| == 1 then items[0]
    else items[0] + sep + Join(sep, items[1..])
  }

  function DigitChar(d: int): char
    requires 0 <= d < 10
  {
    "0123456789"[d]
  }

  /** Decimal digits of a natural number, most significant first. */
  function NatToString(n: nat): (r: string)
    ensures |r| > 0
    ensures forall i :: 0 <= i < |r| ==> '0' <= r[i] <= '9'
  {
    if n < 10 then [DigitChar(n)] else NatToString(n / 10) + [DigitChar(n % 10)]
  }

  /** `String.valueOf(int)`. */
  function IntToString(n: int): (r: string)
    ensures |r| > 0
    ensures n < 0 <==> r[0] == '-'
  {
    if n < 0 then "-" + NatToString(-n) else NatToString(n)
  }

  /** The value a string of decimal digits denotes. */
  function DigitsValue(s: string): int
    requires forall i :: 0 <= i < |s| ==> '0' <= s[i] <= '9'
  {
    if s == [] then 0 else 10 * DigitsValue(s[..|s| - 1]) + (s[|s| - 1] as int - '0' as int)
  }

  /** Decimal formatting can be read back: the digits denote the number. */
  lemma {:induction false} NatToStringValue(n: nat)
    ensures DigitsValue(NatToString(n)) == n
  {
    var r := NatToString(n);
    if n >= 10 {
      NatToStringValue(n / 10);
      assert r[..|r| - 1] == NatToString(n / 10);
    }
  }

  /** `sub` occurs in any string that has it between a prefix and a suffix. */
  lemma {:induction false} ContainsMiddle(a: string, sub: string, b: string)
    ensures Contains(a + sub + b, sub)
    decreases |a|
  {
    if a == [] {
      assert a + sub + b == sub + b;
    } else {
      ContainsMiddle(a[1..], sub, b);
      assert (a + sub + b)[1..] == a[1..] + sub + b;
    }
  }

  lemma ContainsSecond(a: string, b: string, c: string, d: string)
    ensures Contains(a + b + c + d, b)
  {
    assert a + b + c + d == a + b + (c + d);
    ContainsMiddle(a, b, c + d);
  }

  lemma ContainsThird(a: string, b: string, c: string, d: string)
    ensures Contains(a + b + c + d, c)
  {
    ContainsMiddle(a + b, c, d);
  }

  lemma ContainsLast(a: string, b: string)
    ensures Contains(a + b, b)
  {
    assert a + b == a + b + [];
    ContainsMiddle(a, b, []);
  }

  // ---------------------------------------------------------------- Java `int`

  const TwoTo32: int := 0x1_0000_0000
  const TwoTo31: int := 0x8000_0000

  /** Java `int` arithmetic: the value wrapped into [-2^31, 2^31). */
  function Int32(x: int): (r: int)
    ensures -TwoTo31 <= r < TwoTo31
    ensures -TwoTo31 <= x < TwoTo31 ==> r == x
  {
    (x + TwoTo31) % TwoTo32 - TwoTo31
  }

  /** Wrapping after every addition is wrapping once at the end. */
  lemma Int32Add(x: int, y: int)
    ensures Int32(Int32(x) + y) == Int32(x + y)
  {
    var q := (x + TwoTo31) / TwoTo32;
    assert Int32(x) == x - TwoTo32 * q;
    ModShift(x + y + TwoTo31, q);
  }

  /** A running 32-bit total stays the 32-bit sum of what it has added. */
  lemma Int32SumStep(xs: seq<int>, x: int, total: int)
    requires total == Int32(Sum(xs))
    ensures Int32(total + x) == Int32(Sum(xs + [x]))
  {
    SumAppend(xs, [x]);
    Int32Add(Sum(xs), x);
  }

  lemma ModShift(a: int, q: int)
    ensures (a - TwoTo32 * q) % TwoTo32 == a % TwoTo32
  {
    var m := a % TwoTo32;
    var d := a / TwoTo32;
    assert a - TwoTo32 * q == TwoTo32 * (d - q) + m;
  }

  // ---------------------------------------------------------------- sums

  function Sum(s: seq<int>): int {
    if s == [] then 0 else Sum(s[..|s| - 1]) + s[|s| - 1]
  }

  lemma {:induction false} SumAppend(a: seq<int>, b: seq<int>)
    ensures Sum(a + b) == Sum(a) + Sum(b)
    decreases |b|
  {
    if b == [] {
      assert a + b == a;
    } else {
      SumAppend(a, b[..|b| - 1]);
      assert (a + b)[..|a + b| - 1] == a + b[..|b| - 1];
    }
  }

  lemma {:induction false} SumBounds(s: seq<int>, lo: int, hi: int)
    requires forall i :: 0 <= i < |s| ==> lo <= s[i] <= hi
    ensures |s| * lo <= Sum(s) <= |s| * hi
  {
    if s != [] {
      SumBounds(s[..|s| - 1], lo, hi);
    }
  }

  // ---------------------------------------------------------------- maps

  /** A repetition-free enumeration of exactly the elements of `ks`. */
  ghost predicate EnumeratesSet(order: seq<string>, ks: set<string>) {
    (forall i, j :: 0 <= i < j < |order| ==> order[i] != order[j]) &&
    (forall k :: k in ks <==> k in order)
  }

  /** A repetition-free enumeration of exactly the keys of `m`. */
  ghost predicate Enumerates<V>(order: seq<string>, m: map<string, V>) {
    EnumeratesSet(order, m.Keys)
  }

  /** The sum of `m`'s values taken in `order`. */
  function SumOver(order: seq<string>, m: map<string, int>): int
    requires forall k :: k in order ==> k in m
  {
    if order == [] then 0 else SumOver(order[..|order| - 1], m) + m[order[|order| - 1]]
  }

  // ---------------------------------------------------------------- paging

  /**
   * The content of page `page` of size `size` (`PageRequest.of(page, size)`):
   * the elements from index `page * size` on, at most `size` of them.
   */
  function Page<T>(s: seq<T>, page: nat, size: nat): (r: seq<T>)
    requires size > 0
    ensures |r| <= size
    ensures page * size >= |s| ==> r == []
    ensures page * size < |s| ==> |r| == if |s| - page * size < size then |s| - page * size else size
    ensures forall i :: 0 <= i < |r| ==> page * size + i < |s| && r[i] == s[page * size + i]
  {
    var start := page * size;
    if start >= |s| then []
    else if |s| - start < size then s[start..]
    else s[start..start + size]
  }

  /** Every element lies on exactly one page: element `j` is entry `j % size` of page `j / size`. */
  lemma PageOf<T>(s: seq<T>, size: nat, j: nat)
    requires size > 0 && j < |s|
    ensures j % size < |Page(s, j / size, size)|
    ensures Page(s, j / size, size)[j % size] == s[j]
  {
    var p := j / size;
    assert p * size + j % size == j;
    assert p * size <= j;
  }

  /** Every element of a sequence is on some page. */
  lemma OnSomePage<T>(s: seq<T>, size: nat, j: nat)
    requires size > 0 && j < |s|
    ensures exists p: nat, k: nat :: (k < |Page(s, p, size)| && Page(s, p, size)[k] == s[j])
  {
    var p: nat, k: nat := j / size, j % size;
    PageOf(s, size, j);
    assert k < |Page(s, p, size)| && Page(s, p, size)[k] == s[j];
  }
}
