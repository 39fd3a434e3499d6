/** Outcomes of a request and the optional fields of a request body. */
module Base {

  datatype Option<T> = None | Some(value: T)

  /** The error kinds a route passes to the error handler, by HTTP status:
      NotFound 404, Forbidden 403, BadInput 400, Conflict 409, and Unexpected
      for an error without a status (a thrown TypeError, a validation error),
      which the error handler answers with 500. */
  datatype Error = NotFound | Forbidden | BadInput | Conflict | Unexpected

  datatype Result<T> = Ok(value: T) | Err(error: Error)

  /** JavaScript truthiness of an optional string field of a request body:
      present and not the empty string. */
  predicate Truthy(field: Option<string>)
  {
    field.Some? && field.value != ""
  }

  /** The idiom `field ? field : current` used by the update routes. */
  function OrKeep(field: Option<string>, current: string): string
  {
    if Truthy(field) then field.value else current
  }
}

/** Mongoose id arrays used as sets: `following`, `followers`, `saved` and
    every `likes` list. */
module IdList {

  predicate NoDup(s: seq<nat>)
  {
    forall i, j | 0 <= i < j < |s| :: s[i] != s[j]
  }

  /** `if (list.indexOf(x) === -1) list.push(x)`: append `x` iff it is absent. */
  function AddToSet(s: seq<nat>, x: nat): (r: seq<nat>)
    ensures x in r
    ensures forall y :: y in r <==> y in s || y == x
    ensures x in s ==> r == s
    ensures x !in s ==> r == s + [x]
    ensures NoDup(s) ==> NoDup(r)
  {
    if x in s then s else s + [x]
  }

  /** `list.remove(x)` (Mongoose `pull`): drop every occurrence of `x` and keep
      the order of the rest. */
  function Pull(s: seq<nat>, x: nat): (r: seq<nat>)
    ensures x !in r
    ensures forall y :: y != x ==> (y in r <==> y in s)
    ensures |r| <= |s|
    ensures x !in s ==> r == s
    ensures NoDup(s) ==> NoDup(r)
  {
    if s == [] then []
    else
      var rest := Pull(s[1..], x);
      if s[0] == x then rest
      else
        assert NoDup(s) ==> NoDup(s[1..]) && s[0] !in s[1..] by {
          if NoDup(s) {
            forall i, j | 0 <= i < j < |s[1..]| ensures s[1..][i] != s[1..][j] {
              assert s[1..][i] == s[i + 1] && s[1..][j] == s[j + 1];
            }
            forall j | 0 <= j < |s[1..]| ensures s[1..][j] != s[0] {
              assert s[1..][j] == s[j + 1];
            }
          }
        }
        NoDupCons(s[0], rest);
        [s[0]] + rest
  }

  /** `r` is `s` with some entries left out and the rest in their order. */
  predicate Subsequence(r: seq<nat>, s: seq<nat>)
    decreases |s|
  {
    if r == [] then true
    else if s == [] then false
    else (r[0] == s[0] && Subsequence(r[1..], s[1..])) || Subsequence(r, s[1..])
  }

  lemma NoDupCons(x: nat, s: seq<nat>)
    ensures NoDup([x] + s) <== x !in s && NoDup(s)
  {
    if x !in s && NoDup(s) {
      forall i, j | 0 <= i < j < |[x] + s| ensures ([x] + s)[i] != ([x] + s)[j] {
        if i > 0 {
          assert ([x] + s)[i] == s[i - 1];
        }
        assert ([x] + s)[j] == s[j - 1];
      }
    }
  }

  /** Pulling keeps the order of the rest: the result is a subsequence of
      the list, and it holds every other id as often as the list does. */
  lemma {:induction false} PullKeepsOrder(s: seq<nat>, x: nat)
    ensures Subsequence(Pull(s, x), s)
    ensures multiset(Pull(s, x)) == multiset(s)[x := 0]
  {
    if s != [] {
      PullKeepsOrder(s[1..], x);
      assert s == [s[0]] + s[1..];
      if s[0] != x {
        assert Pull(s, x)[1..] == Pull(s[1..], x);
      }
    }
  }

  /** Pulling distributes over concatenation. */
  lemma {:induction false} PullAppend(s: seq<nat>, t: seq<nat>, x: nat)
    ensures Pull(s + t, x) == Pull(s, x) + Pull(t, x)
  {
    if s == [] {
      assert s + t == t;
    } else {
      assert (s + t)[1..] == s[1..] + t;
      PullAppend(s[1..], t, x);
    }
  }

  /** Adding an id and then removing it restores a list that did not hold it:
      a like followed by an unlike, a follow followed by an unfollow. */
  lemma {:induction false} PullUndoesAdd(s: seq<nat>, x: nat)
    requires x !in s
    ensures Pull(AddToSet(s, x), x) == s
  {
    PullAppend(s, [x], x);
    assert Pull([x], x) == Pull([], x) == [];
  }

  /** Adding twice is adding once; removing twice is removing once. */
  lemma AddAndPullIdempotent(s: seq<nat>, x: nat)
    ensures AddToSet(AddToSet(s, x), x) == AddToSet(s, x)
    ensures Pull(Pull(s, x), x) == Pull(s, x)
  {
  }
}
