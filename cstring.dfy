/**
 * C strings as the library routines see them: a sequence of characters
 * read up to its terminating NUL.
 */
module CString {

  /** The character that terminates a C string. */
  const NUL: char := '\0'

  /** Character `i` of `s` as C reads it: past the last character lies the terminator. */
  function At(s: string, i: nat): char {
    if i < |s| then s[i] else NUL
  }

  /** `strncmp(a, b, n) == 0`: the first `n` characters agree, or both strings end together before that. */
  predicate StrNCmpZero(a: string, b: string, n: nat) {
    EqualFrom(a, b, n, 0)
  }

  /** The comparison loop of `strncmp` from position `k` on. */
  predicate EqualFrom(a: string, b: string, n: nat, k: nat)
    decreases n - k
  {
    k >= n || (At(a, k) == At(b, k) && (At(a, k) == NUL || EqualFrom(a, b, n, k + 1)))
  }

  /** Against a pattern with no terminator in its first `n` characters, the loop from `k` only asks that `b` agree there. */
  lemma {:induction false} EqualFromIff(a: string, b: string, n: nat, k: nat)
    requires k <= n <= |a|
    requires forall i :: k <= i < n ==> a[i] != NUL
    ensures EqualFrom(a, b, n, k) <==> forall j :: k <= j < n ==> At(b, j) == a[j]
    decreases n - k
  {
    if k < n {
      EqualFromIff(a, b, n, k + 1);
    }
  }

  /**
   * `strncmp(a, b, n) == 0` against such a pattern holds exactly when `b` is
   * at least `n` characters long and starts with the same `n` characters.
   */
  lemma StrNCmpZeroIff(a: string, b: string, n: nat)
    requires n <= |a|
    requires forall i :: 0 <= i < n ==> a[i] != NUL
    ensures StrNCmpZero(a, b, n) <==> n <= |b| && b[..n] == a[..n]
  {
    EqualFromIff(a, b, n, 0);
    if forall j :: 0 <= j < n ==> At(b, j) == a[j] {
      if n > 0 {
        assert At(b, n - 1) == a[n - 1] != NUL;
      }
      assert forall j :: 0 <= j < n ==> b[j] == a[j] by {
        forall j | 0 <= j < n ensures b[j] == a[j] {
          assert At(b, j) == a[j] != NUL;
        }
      }
    }
    if n <= |b| && b[..n] == a[..n] {
      forall j | 0 <= j < n ensures At(b, j) == a[j] {
        assert b[..n][j] == a[..n][j];
      }
    }
  }
}
