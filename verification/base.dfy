/**
 The failure vocabulary shared by every module of the model.

 The modelled Python code reports failure by raising an exception; the model
 returns a `Result` instead, naming the exception class that Python would raise.
 */
module Base {

  /** Optional values, standing for Python's `Optional[T]` (`None` or a value). */
  datatype Option<+T> = None | Some(value: T) {
    function GetOr(default: T): T {
      match this
      case Some(v) => v
      case None => default
    }
  }

  /** The exception classes the modelled code can raise. */
  datatype PyError =
    | ValueError      // bad argument value (pathlib, pydantic validators)
    | TypeError       // operation applied to a value of the wrong type
    | AttributeError  // missing attribute
    | NameError       // unbound name
    | IOError         // a collaborator failed to read a file

  /** The outcome of a call that either returns a value or raises. */
  datatype Result<+T> = Ok(value: T) | Err(error: PyError) {
    predicate IsFailure() {
      Err?
    }

    function PropagateFailure<U>(): Result<U>
      requires Err?
    {
      Err(error)
    }

    function Extract(): T
      requires Ok?
    {
      value
    }
  }

  /** Extending a prefix by the next element. */
  lemma TakeNext<T>(s: seq<T>, i: nat)
    requires i < |s|
    ensures s[..i + 1] == s[..i] + [s[i]]
  {
  }

  // The lemmas below state container facts for an arbitrary element type.
  // Callers use them instead of letting the solver argue extensionally about
  // sequences and sets of nested sequences (paths), which is expensive.

  lemma AppendAssoc<T>(a: seq<T>, b: seq<T>, c: seq<T>)
    ensures (a + b) + c == a + (b + c)
  {
  }

  lemma AppendDropFirst<T>(a: seq<T>, b: seq<T>)
    requires |a| > 0
    ensures (a + b)[0] == a[0] && (a + b)[1..] == a[1..] + b
  {
  }

  lemma AppendEmpty<T>(a: seq<T>, b: seq<T>)
    requires |a| == 0
    ensures a + b == b
  {
  }

  lemma AppendParts<T>(a: seq<T>, b: seq<T>)
    ensures (a + b)[..|a|] == a && (a + b)[|a|..] == b
  {
  }

  lemma UnionAssoc<T>(a: set<T>, b: set<T>, c: set<T>)
    ensures (a + b) + c == a + (b + c)
  {
  }

  lemma UnionEmpty<T>(a: set<T>)
    ensures a + {} == a
  {
  }

  lemma MapUpdateKeys<K, V>(m: map<K, V>, k: K, v: V)
    ensures m[k := v].Keys == m.Keys + {k}
  {
  }

  lemma MapUnionAssoc<K, V>(a: map<K, V>, b: map<K, V>, c: map<K, V>)
    ensures (a + b) + c == a + (b + c)
  {
  }

  lemma MapUnionEmpty<K, V>(a: map<K, V>)
    ensures a + map[] == a && map[] + a == a
  {
  }

  lemma AppendNil<T>(a: seq<T>)
    ensures a + [] == a
  {
  }

  lemma InHeadOrTail<T>(s: seq<T>)
    requires |s| > 0
    ensures forall e :: e in s <==> e == s[0] || e in s[1..]
  {
    assert s == [s[0]] + s[1..];
  }

  lemma InCons<T>(x: T, s: seq<T>)
    ensures forall e :: e in [x] + s <==> e == x || e in s
  {
  }
}
