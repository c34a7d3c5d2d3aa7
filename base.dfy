/** Option, Result and the Python exceptions the modelled scripts can raise. */
module Base {

  datatype Option<+T> = None | Some(value: T)

  /** The exceptions of the modelled code, by the Python class that would be raised. */
  datatype Error =
    | ValueError(message: string)
    | KeyError(key: string)
    | IndexError(message: string)
    | TypeError(message: string)
    | NameError(name: string)
    | ZeroDivisionError
    | FileNotFoundError(path: string)
    | FileExistsError(path: string)
    | AttributeError(message: string)
    /** The bare `Exception` raised when a sidecar has no `EffectiveEchoSpacing`. */
    | MissingFieldError(field: string)

  /** A value, or the exception that stopped the computation (failure-compatible with `:-`). */
  datatype Result<+T> = Ok(value: T) | Err(error: Error) {
    predicate IsFailure() { Err? }
    function PropagateFailure<U>(): Result<U> requires Err? { Err(error) }
    function Extract(): T requires Ok? { value }
  }

  /** Python truthiness of an optional string such as a session label: `None` and `''` are false. */
  predicate Truthy(ses: Option<string>) {
    ses.Some? && ses.value != ""
  }

  /** No element occurs twice. */
  predicate Distinct<T(==)>(s: seq<T>) {
    forall i, j :: 0 <= i < j < |s| ==> s[i] != s[j]
  }

  /** In a sequence without repeats each value occurs at most once. */
  lemma DistinctOnce<T>(s: seq<T>, x: T)
    requires Distinct(s)
    ensures multiset(s)[x] <= 1
  {
    if |s| > 0 {
      assert s == [s[0]] + s[1..];
      DistinctOnce(s[1..], x);
      if x == s[0] {
        assert x !in s[1..];
      }
    }
  }

  /** A sequence in which each value occurs at most once has no repeats. */
  lemma OnceDistinct<T>(s: seq<T>)
    requires forall x :: multiset(s)[x] <= 1
    ensures Distinct(s)
  {
    forall i, j | 0 <= i < j < |s| ensures s[i] != s[j] {
      assert s == s[..j] + s[j..];
      assert s[i] in s[..j] && s[j] in s[j..];
      assert multiset(s)[s[j]] == multiset(s[..j])[s[j]] + multiset(s[j..])[s[j]];
    }
  }

  /** A permutation of a sequence without repeats has none either. */
  lemma PermutationDistinct<T>(a: seq<T>, b: seq<T>)
    requires multiset(a) == multiset(b) && Distinct(a)
    ensures Distinct(b)
  {
    forall x ensures multiset(b)[x] <= 1 {
      DistinctOnce(a, x);
    }
    OnceDistinct(b);
  }
}
