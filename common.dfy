/** Helpers shared by the models of the Jazer messaging library: Java's null as
    an Option, list removal of the first equal element (ArrayList.remove and
    BlockingQueue.remove), the first-free search of the worker pools and the
    decimal rendering of an int used in slave names. */
module Common {

  /** A Java reference that may be null. */
  datatype Option<+T> = None | Some(value: T)

  /** The unchecked exceptions a modelled call lets escape to its caller. */
  datatype Thrown = IllegalArgument | NullPointer

  /** How a Java call ends: it returns a value, or an exception escapes it. */
  datatype Outcome<+T> = Returned(value: T) | Threw(exception: Thrown)

  /** A port `new Socket` and `new ServerSocket` accept; any other throws IllegalArgumentException. */
  predicate ValidPort(port: int)
  {
    0 <= port <= 65535
  }

  /** A task handed to a worker pool (a Java Runnable); only its identity matters. */
  datatype Runnable = Runnable(id: nat)

  /** Index of the first occurrence of `x` in `s`. */
  function IndexOf<T(==)>(s: seq<T>, x: T): (i: nat)
    requires x in s
    ensures i < |s| && s[i] == x && x !in s[..i]
  {
    if s[0] == x then 0 else 1 + IndexOf(s[1..], x)
  }

  /** `s` without its first occurrence of `x`, or `s` itself when `x` does not occur:
      what java.util.List.remove(Object) and java.util.Queue.remove(Object) leave. */
  function RemoveFirst<T(==)>(s: seq<T>, x: T): (r: seq<T>)
    ensures |r| == if x in s then |s| - 1 else |s|
    ensures x !in s ==> r == s
  {
    if s == [] then []
    else if s[0] == x then s[1..]
    else [s[0]] + RemoveFirst(s[1..], x)
  }

  /** Removal of the first occurrence keeps everything else, in order: the
      result is the input with exactly the position IndexOf(s, x) cut out. */
  lemma {:induction false} RemoveFirstSplit<T>(s: seq<T>, x: T)
    requires x in s
    ensures RemoveFirst(s, x) == s[..IndexOf(s, x)] + s[IndexOf(s, x) + 1..]
  {
    if s[0] == x {
      assert IndexOf(s, x) == 0;
      assert s[..0] + s[1..] == s[1..];
    } else {
      var t := s[1..];
      var j := IndexOf(t, x);
      RemoveFirstSplit(t, x);
      assert RemoveFirst(s, x) == [s[0]] + RemoveFirst(t, x);
      assert IndexOf(s, x) == j + 1;
      assert s[..j + 1] == [s[0]] + t[..j];
      assert s[j + 2..] == t[j + 1..];
    }
  }

  /** Removal takes away exactly one copy of `x` and nothing else. */
  lemma RemoveFirstMultiset<T>(s: seq<T>, x: T)
    ensures multiset(RemoveFirst(s, x)) == multiset(s) - multiset{x}
  {
    if x !in s {
      assert x !in multiset(s);
      return;
    }
    RemoveFirstSplit(s, x);
    var i := IndexOf(s, x);
    assert s == s[..i] + [x] + s[i + 1..];
  }

  /** No element occurs twice (the identity of list members). */
  ghost predicate Distinct<T>(s: seq<T>)
  {
    forall i, j :: 0 <= i < j < |s| ==> s[i] != s[j]
  }

  /** Removing an element from a list without duplicates leaves one without duplicates. */
  lemma RemoveFirstDistinct<T>(s: seq<T>, x: T)
    requires Distinct(s)
    ensures Distinct(RemoveFirst(s, x))
  {
    if x in s {
      RemoveFirstSplit(s, x);
      var i := IndexOf(s, x);
      var r := RemoveFirst(s, x);
      forall a, b | 0 <= a < b < |r| ensures r[a] != r[b] {
        var a' := if a < i then a else a + 1;
        var b' := if b < i then b else b + 1;
        assert r[a] == s[a'] && r[b] == s[b'];
      }
    }
  }

  /** Index of the first None in `s`: the first free slave of a worker pool. */
  function FirstNone<T>(s: seq<Option<T>>): (r: Option<nat>)
    ensures r.Some? ==> r.value < |s| && s[r.value].None?
    ensures r.Some? ==> forall k :: 0 <= k < r.value ==> s[k].Some?
    ensures r.None? <==> forall k :: 0 <= k < |s| ==> s[k].Some?
  {
    if s == [] then None
    else if s[0].None? then Some(0)
    else match FirstNone(s[1..])
      case None => None
      case Some(i) => Some(i + 1)
  }

  /** Java's 32-bit `int`. */
  newtype int32 = x: int | -0x8000_0000 <= x < 0x8000_0000

  /** Java's `x++` on an int: one more, modulo 2^32, so the largest int wraps to the smallest. */
  function Int32Increment(x: int32): (r: int32)
    ensures (r as int - x as int - 1) % 0x1_0000_0000 == 0
    ensures x < 0x7fff_ffff ==> r as int == x as int + 1
  {
    if x == 0x7fff_ffff then -0x8000_0000 else x + 1
  }

  /** The element list of key `k` in a map of lists, with a missing key read as empty. */
  function ValuesAt<K, V>(m: map<K, seq<V>>, k: K): seq<V>
  {
    if k in m then m[k] else []
  }

  /** The decimal digits of a natural number, as Java's string concatenation writes an int >= 0. */
  function NatToString(n: nat): (r: string)
    ensures |r| >= 1
    ensures forall k :: 0 <= k < |r| ==> '0' <= r[k] <= '9'
    ensures DigitsValue(r) == n
    ensures r[0] == '0' ==> n == 0
  {
    if n < 10 then [Digit(n)]
    else
      var r := NatToString(n / 10) + [Digit(n % 10)];
      assert r[..|r| - 1] == NatToString(n / 10);
      r
  }

  function Digit(d: nat): (c: char)
    requires d < 10
    ensures '0' <= c <= '9' && c as int - '0' as int == d
  {
    ('0' as int + d) as char
  }

  /** The value of a string of decimal digits. */
  function DigitsValue(s: string): nat
    requires forall k :: 0 <= k < |s| ==> '0' <= s[k] <= '9'
  {
    if s == [] then 0
    else DigitsValue(s[..|s| - 1]) * 10 + (s[|s| - 1] as int - '0' as int)
  }
}
