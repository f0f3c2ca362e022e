/** The address tree: the root, the discard address, deriving a parent's
    address, and ancestry along the chain of parents. The child path and
    the id rules are those of `SystemAddress`. */
module AddressTree {
  import opened Wrappers
  import SystemAddress

  /** Addresses are path strings. */
  type Address = string

  /** The root of the address tree. */
  const ROOT: Address := SystemAddress.SEPERATOR

  /** The address that absorbs messages for targets that cannot be addressed. */
  const ADDRESS_DISCARD: Address := "?"

  /** `make`: the address of child `id` under `parent`. */
  function Make(parent: Address, id: string): Address {
    SystemAddress.MkChildPath(SystemAddress.SEPERATOR, id, parent)
  }

  /** `isRestricted`: the id breaks the id rules and may not name an actor. */
  predicate IsRestricted(id: string) {
    SystemAddress.ValidateId(SystemAddress.SEPERATOR, id).Left?
  }

  /** Index of the last separator character in `s`, if there is one. */
  function LastSep(s: string): (r: Option<nat>)
    ensures r.Some? ==> r.value < |s| && s[r.value] == '/'
    ensures r.Some? ==> forall j :: r.value < j < |s| ==> s[j] != '/'
    ensures r.None? ==> forall j :: 0 <= j < |s| ==> s[j] != '/'
  {
    if s == [] then None
    else if s[|s| - 1] == '/' then Some(|s| - 1)
    else LastSep(s[..|s| - 1])
  }

  /** `getParent`: strips the last segment; an address whose only separator
      leads it, or that has none, belongs to the root, and the root is its
      own parent. */
  function GetParent(a: Address): Address {
    match LastSep(a)
    case None => ROOT
    case Some(i) => if i == 0 then ROOT else a[..i]
  }

  /** Distance measure that every step to a parent decreases. */
  function Measure(a: Address): nat {
    if a == ROOT then 0 else |a| + 1
  }

  /** Going to the parent strictly decreases the measure, except at the root. */
  lemma ParentCloser(a: Address)
    requires a != ROOT
    ensures Measure(GetParent(a)) < Measure(a)
  {
  }

  /** `p` is a strict ancestor of `a`: it is reached by going to the parent
      one or more times. */
  predicate IsAncestor(p: Address, a: Address)
    decreases Measure(a)
  {
    a != ROOT && (GetParent(a) == p || (ParentCloser(a); IsAncestor(p, GetParent(a))))
  }

  /** `a` is `p` itself or lies somewhere below it. */
  predicate InTree(p: Address, a: Address) {
    a == p || IsAncestor(p, a)
  }

  /** An ancestor is strictly closer to the root than its descendant, so no
      address is its own ancestor. */
  lemma {:induction false} AncestorMeasure(p: Address, a: Address)
    requires IsAncestor(p, a)
    ensures Measure(p) < Measure(a)
    ensures p != a
    decreases Measure(a)
  {
    ParentCloser(a);
    if GetParent(a) != p {
      AncestorMeasure(p, GetParent(a));
    }
  }

  /** The root is an ancestor of every other address. */
  lemma {:induction false} RootIsAncestor(a: Address)
    requires a != ROOT
    ensures IsAncestor(ROOT, a)
    decreases Measure(a)
  {
    ParentCloser(a);
    if GetParent(a) != ROOT {
      RootIsAncestor(GetParent(a));
    }
  }

  /** Ancestry is transitive. */
  lemma {:induction false} AncestorTransitive(p: Address, q: Address, a: Address)
    requires IsAncestor(p, q) && IsAncestor(q, a)
    ensures IsAncestor(p, a)
    decreases Measure(a)
  {
    ParentCloser(a);
    if GetParent(a) != q {
      AncestorTransitive(p, q, GetParent(a));
    }
  }

  /** The last separator of `u + "/" + t` is the one after `u` when `t` has none. */
  lemma {:induction false} LastSepAfter(u: string, t: string)
    requires '/' !in t
    ensures LastSep(u + "/" + t) == Some(|u|)
    decreases |t|
  {
    if t == [] {
      assert u + "/" + t == u + "/";
    } else {
      var s := u + "/" + t;
      assert s[|s| - 1] == t[|t| - 1];
      assert s[..|s| - 1] == u + "/" + t[..|t| - 1];
      LastSepAfter(u, t[..|t| - 1]);
    }
  }

  /** For every valid id and every non-empty parent, the parent of the child
      address is the parent again. */
  lemma ParentOfChild(parent: Address, id: string)
    requires !IsRestricted(id) && parent != ""
    ensures GetParent(Make(parent, id)) == parent
  {
    SystemAddress.ContainsChar(id, '/');
    if parent == ROOT {
      assert Make(parent, id) == "" + "/" + id;
      LastSepAfter("", id);
    } else {
      SystemAddress.NonRootChildPath(id, parent);
      LastSepAfter(parent, id);
      assert (parent + "/" + id)[..|parent|] == parent;
    }
  }

  /** A child with a valid non-empty id lies strictly below its parent. */
  lemma ChildIsDescendant(parent: Address, id: string)
    requires !IsRestricted(id) && parent != "" && id != ""
    ensures IsAncestor(parent, Make(parent, id))
  {
    ParentOfChild(parent, id);
    if Make(parent, id) == ROOT {
      SystemAddress.NonRootChildPath(id, parent);
    }
  }
}
