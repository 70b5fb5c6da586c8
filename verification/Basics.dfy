/** Result and option types shared by the models. */
module Basics {

  datatype Option<+T> = None | Some(value: T)

  datatype Result<+T, +E> = Ok(value: T) | Err(error: E)

  /** Position of the first `c` in `s`, or `|s|` when there is none. */
  function IndexOf<T(==)>(s: seq<T>, c: T): (i: nat)
    ensures i <= |s|
    ensures i < |s| ==> s[i] == c
    ensures c !in s[..i]
  {
    if s == [] || s[0] == c then 0 else 1 + IndexOf(s[1..], c)
  }

  /** The text before the first `/`, or the empty string when there is none. */
  function BeforeSlash(s: string): string {
    var i := IndexOf(s, '/');
    if i < |s| then s[..i] else ""
  }

  lemma {:induction false} IndexOfIs<T>(s: seq<T>, c: T, i: nat)
    requires i < |s| && s[i] == c && c !in s[..i]
    ensures IndexOf(s, c) == i
  {
    if i > 0 {
      assert s[0] == s[..i][0];
      assert s[1..][..i - 1] == s[..i][1..];
      IndexOfIs(s[1..], c, i - 1);
    }
  }

  lemma {:induction false} IndexOfAtMost<T>(s: seq<T>, c: T, k: nat)
    requires k < |s| && s[k] == c
    ensures IndexOf(s, c) <= k
  {
    if s[0] != c { IndexOfAtMost(s[1..], c, k - 1); }
  }

  /** An id made from a `/`-free prefix names that prefix as its first segment. */
  lemma PrefixNamesOwner(owner: string, s: string)
    requires '/' !in owner
    requires owner + "/" <= s
    ensures BeforeSlash(s) == owner
  {
    var stem := owner + "/";
    assert s[|owner|] == stem[|owner|];
    assert s[..|owner|] == stem[..|owner|] == owner;
    IndexOfIs(s, '/', |owner|);
  }

  /** The owner of an id is what stands before its first slash, and nobody if it has none. */
  lemma BeforeSlashExactly(owner: string, name: string, plain: string)
    requires '/' !in owner && '/' !in plain
    ensures BeforeSlash(owner + "/" + name) == owner && BeforeSlash(plain) == ""
  {
    PrefixNamesOwner(owner, owner + "/" + name);
  }
}
