/** Inductive lists: slot numbers, keys, node names, in list order. */
module Lists {
  import opened Bytes

  datatype List<T> = Nil | Cons(head: T, tail: List<T>)

  function Elems<T(==)>(l: List<T>): set<T> {
    match l
    case Nil => {}
    case Cons(x, t) => {x} + Elems(t)
  }

  function Len<T>(l: List<T>): nat {
    match l
    case Nil => 0
    case Cons(_, t) => 1 + Len(t)
  }

  ghost predicate NoDup<T>(l: List<T>) {
    match l
    case Nil => true
    case Cons(x, t) => x !in Elems(t) && NoDup(t)
  }

  function First<T>(l: List<T>): Option<T> {
    match l
    case Nil => None
    case Cons(x, _) => Some(x)
  }

  function Last<T>(l: List<T>): Option<T> {
    match l
    case Nil => None
    case Cons(x, t) => if t.Nil? then Some(x) else Last(t)
  }

  function Without<T(==)>(l: List<T>, x: T): List<T> {
    match l
    case Nil => Nil
    case Cons(y, t) => if x == y then Without(t, x) else Cons(y, Without(t, x))
  }

  /** Moves `x` to the front, or enters it there. */
  function Touch<T(==)>(l: List<T>, x: T): List<T> {
    Cons(x, Without(l, x))
  }

  function Append<T>(l: List<T>, m: List<T>): List<T> {
    match l
    case Nil => m
    case Cons(x, t) => Cons(x, Append(t, m))
  }

  function SeqOf<T>(l: List<T>): seq<T> {
    match l
    case Nil => []
    case Cons(x, t) => [x] + SeqOf(t)
  }

  lemma {:induction false} SeqOfLength<T>(l: List<T>)
    ensures |SeqOf(l)| == Len(l)
  {
    if l.Cons? { SeqOfLength(l.tail); }
  }

  lemma {:induction false} AppendNil<T>(l: List<T>)
    ensures Append(l, Nil) == l
  {
    if l.Cons? { AppendNil(l.tail); }
  }

  lemma {:induction false} AppendAssoc<T>(a: List<T>, b: List<T>, c: List<T>)
    ensures Append(Append(a, b), c) == Append(a, Append(b, c))
  {
    if a.Cons? { AppendAssoc(a.tail, b, c); }
  }

  lemma {:induction false} AppendElems<T>(a: List<T>, b: List<T>)
    ensures Elems(Append(a, b)) == Elems(a) + Elems(b)
  {
    if a.Cons? { AppendElems(a.tail, b); }
  }

  lemma {:induction false} WithoutAppend<T>(a: List<T>, b: List<T>, x: T)
    ensures Without(Append(a, b), x) == Append(Without(a, x), Without(b, x))
  {
    if a.Cons? { WithoutAppend(a.tail, b, x); }
  }

  lemma {:induction false} WithoutElems<T>(l: List<T>, x: T)
    ensures Elems(Without(l, x)) == Elems(l) - {x}
    ensures NoDup(l) ==> NoDup(Without(l, x))
    ensures NoDup(l) ==> Len(Without(l, x)) == if x in Elems(l) then Len(l) - 1 else Len(l)
    ensures x !in Elems(l) ==> Without(l, x) == l
  {
    if l.Cons? { WithoutElems(l.tail, x); }
  }

  lemma TouchElems<T>(l: List<T>, x: T)
    ensures Elems(Touch(l, x)) == Elems(l) + {x}
  {
    WithoutElems(l, x);
  }

  lemma {:induction false} LenElems<T>(l: List<T>)
    requires NoDup(l)
    ensures |Elems(l)| == Len(l)
  {
    if l.Cons? { LenElems(l.tail); }
  }

  lemma {:induction false} LastElem<T>(l: List<T>)
    ensures l.Cons? ==> Last(l).Some? && Last(l).value in Elems(l)
  {
    if l.Cons? { LastElem(l.tail); }
  }

  /** `n - 1` down to 0. */
  function Countdown(n: nat): List<int> {
    if n == 0 then Nil else Cons(n - 1, Countdown(n - 1))
  }

  lemma {:induction false} CountdownHas(n: nat, b: int)
    ensures b in Elems(Countdown(n)) <==> 0 <= b < n
  {
    if n > 0 { CountdownHas(n - 1, b); }
  }

  lemma {:induction false} CountdownDistinct(n: nat)
    ensures NoDup(Countdown(n)) && Len(Countdown(n)) == n
  {
    if n > 0 {
      CountdownDistinct(n - 1);
      CountdownHas(n - 1, n - 1);
    }
  }
}
