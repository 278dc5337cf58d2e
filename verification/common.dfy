/** Vocabulary shared by every part of the inventory model: optional values
    (Java's nullable references), results (the exceptions the services throw,
    as values), identity keys, and the string helpers that the bean-validation
    constraints and the case-insensitive lookups are written with. */
module Common {

  /** A nullable Java reference: `None` is `null`. */
  datatype Option<+T> = None | Some(value: T) {
    /** The value, or `default` when absent (the services' `x != null ? x : d`). */
    function GetOr(default: T): T {
      match this
      case Some(v) => v
      case None => default
    }
  }

  /** The exceptions the services raise. */
  datatype Error =
    | NotFound(resource: string, id: int)                    // ResourceNotFoundException(resource, "id", id)
    | Duplicate(resource: string, field: string, value: string) // DuplicateResourceException
    | InsufficientStock(productId: int, requested: int, available: int)

  /** A call that either returns a value or throws. */
  datatype Result<+T> = Success(value: T) | Failure(error: Error)

  /** A call that returns nothing (`void`) or throws. */
  datatype Outcome = Done | Fail(error: Error)

  /** A JPA identity key (a Java `Long`). */
  type Id = int

  /** `@NotBlank`: not null and not empty once leading and trailing characters
      up to U+0020 are trimmed, i.e. it holds some character above a space. */
  predicate NotBlank(s: string) {
    exists i :: 0 <= i < |s| && s[i] > ' '
  }

  /** `@Size(max = n)` on a nullable string: null passes, otherwise length at most n. */
  predicate AtMost(s: Option<string>, n: nat) {
    s.None? || |s.value| <= n
  }

  /** Lower-case one character (the case fold behind SQL `LOWER` and `IgnoreCase`). */
  function LowerChar(c: char): char {
    if 'A' <= c <= 'Z' then (c as int + 32) as char else c
  }

  /** Lower-case a string character by character. */
  function Lower(s: string): (r: string)
    ensures |r| == |s|
    ensures forall i :: 0 <= i < |s| ==> r[i] == LowerChar(s[i])
  {
    if s == [] then [] else [LowerChar(s[0])] + Lower(s[1..])
  }
}
