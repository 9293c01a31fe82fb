/** Shared vocabulary for the gglib model: optional values, results carrying the
    Ruby exception a call would raise, and the dynamic values that travel as
    event arguments. */
module Base {

  /** Ruby's `nil` versus a present value. */
  datatype Option<+T> = None | Some(value: T)

  /** The Ruby exceptions the modelled code can raise on its error paths. */
  datatype Error = NoMethodError | NameError | KeyError

  /** Either the value a call returns or the exception it raises. */
  datatype Result<+T> = Ok(value: T) | Err(error: Error)

  /** Object identity of a widget (or any other referenced object). */
  type Id = nat

  /** A Ruby symbol, identified by its name. */
  type Sym = string

  /** The dynamic values that appear as event arguments and modifiers. */
  datatype Value = Nil | Int(i: int) | Symbol(name: Sym) | Str(s: string) | Ref(id: Id)

  /** One event published on some object's Publisher: the event name and its arguments. */
  datatype Published = Published(event: Sym, args: seq<Value>)

  /** The decimal digits of `n`, as `Integer#to_s` writes them (an object id used as
      a handle name, for instance). */
  function Decimal(n: nat): (s: string)
    ensures |s| >= 1
    ensures forall i :: 0 <= i < |s| ==> '0' <= s[i] <= '9'
    ensures n < 10 ==> |s| == 1
  {
    var d := [(('0' as int) + n % 10) as char];
    if n < 10 then d else Decimal(n / 10) + d
  }

  /** Number of occurrences of `x` in `xs`. */
  function Count<T(==)>(xs: seq<T>, x: T): (n: nat)
    ensures n <= |xs|
    ensures n == 0 <==> x !in xs
  {
    if xs == [] then 0 else (if xs[0] == x then 1 else 0) + Count(xs[1..], x)
  }

  lemma {:induction false} CountAppend<T>(xs: seq<T>, ys: seq<T>, x: T)
    ensures Count(xs + ys, x) == Count(xs, x) + Count(ys, x)
  {
    if xs == [] {
      assert xs + ys == ys;
    } else {
      assert (xs + ys)[1..] == xs[1..] + ys;
      CountAppend(xs[1..], ys, x);
    }
  }
}
