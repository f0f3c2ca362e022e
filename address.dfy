/** Addressing rules of the actor system: the separator, the dead address,
    building a child's path from its parent's and validating actor ids. */
module SystemAddress {
  import opened Wrappers
  import opened Values

  /** Separates a parent's address from its children's. */
  const SEPERATOR: string := "/"

  /** The address that stands for "no actor". */
  const DEAD_ADDRESS: string := "<null>"

  /** The one id that is reserved and may never name an actor. */
  const RESERVED_ID: string := "$"

  /** `sub` occurs in `s` starting at index `i`. */
  predicate OccursAt(s: string, sub: string, i: int) {
    0 <= i <= |s| - |sub| && s[i..i + |sub|] == sub
  }

  /** `sub` occurs somewhere inside `s`. */
  predicate Contains(s: string, sub: string) {
    exists i | 0 <= i <= |s| - |sub| :: OccursAt(s, sub, i)
  }

  /** For a one-character needle, containment is plain membership. */
  lemma ContainsChar(s: string, c: char)
    ensures Contains(s, [c]) <==> c in s
  {
    if c in s {
      var i :| 0 <= i < |s| && s[i] == c;
      assert OccursAt(s, [c], i);
    }
    if Contains(s, [c]) {
      var i :| 0 <= i <= |s| - 1 && OccursAt(s, [c], i);
      assert s[i] == s[i..i + 1][0];
    }
  }

  /** The path of a child actor with id `id` whose parent lives at `parent`.
      A parent that is the separator itself (the root) gets no second
      separator; every other parent is followed by the separator. */
  function MkChildPath(sep: string, id: string, parent: string): (r: string)
    ensures |r| == |parent| + (if parent == sep then 0 else |sep|) + |id|
    ensures r[..|parent|] == parent
    ensures parent != sep ==> r[|parent|..|parent| + |sep|] == sep
    ensures r[|r| - |id|..] == id
  {
    if parent == sep then parent + id else parent + sep + id
  }

  /** Validates an actor id: it must not contain the separator and must
      not be the reserved id. A valid id is returned as it is. */
  function ValidateId(sep: string, id: string): (r: Either<Err, string>)
    ensures r.Right? <==> !Contains(id, sep) && id != RESERVED_ID
    ensures r.Right? ==> r.right == id
  {
    if Contains(id, sep) || id == RESERVED_ID then
      Left(Err("invalid actor id: " + id))
    else
      Right(id)
  }

  /** Under the root, a child's path is the separator followed by the id,
      with no doubled separator when the id is valid. */
  lemma RootChildPath(id: string)
    requires ValidateId(SEPERATOR, id).Right?
    ensures MkChildPath(SEPERATOR, id, SEPERATOR) == SEPERATOR + id
    ensures forall i :: 1 <= i < |SEPERATOR + id| ==> (SEPERATOR + id)[i] != '/'
  {
    ContainsChar(id, '/');
    forall i | 1 <= i < |SEPERATOR + id|
      ensures (SEPERATOR + id)[i] != '/'
    {
      assert (SEPERATOR + id)[i] == id[i - 1];
    }
  }

  /** Under any other parent the parent is a strict prefix of the child and
      the two are joined by exactly one separator. */
  lemma NonRootChildPath(id: string, parent: string)
    requires parent != SEPERATOR
    ensures MkChildPath(SEPERATOR, id, parent) == parent + SEPERATOR + id
    ensures |parent| < |MkChildPath(SEPERATOR, id, parent)|
  {
    var r := MkChildPath(SEPERATOR, id, parent);
    assert r == r[..|parent|] + r[|parent|..|parent| + 1] + r[|r| - |id|..];
  }

  /** Every id that contains the separator, and the reserved id, is refused. */
  lemma ValidateIdRejects(id: string)
    ensures '/' in id ==> ValidateId(SEPERATOR, id).Left?
    ensures ValidateId(SEPERATOR, RESERVED_ID).Left?
  {
    ContainsChar(id, '/');
  }
}
