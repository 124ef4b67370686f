/**
 * The ship's composition: attachPart links a captured part to its parent (the player or
 * an attached part) with a physics constraint, and the scene keeps every constraint in
 * constraintList. A constraint is modelled by its two ends. The functions here are the
 * list operations recursiveDetachPart performs on constraintList (filter, find, splice),
 * and the lemmas say what they mean for the tree the links form.
 */
module CompositionGraph {
  import opened Names
  import opened Wrappers
  import opened PartEntity
  import Registry

  /** A constraint's first body: the player, or an attached part. */
  datatype Node = PlayerNode | PartNode(part: Part)

  /** A constraint from parent (bodyA) to child (bodyB). */
  datatype Link = Link(parent: Node, child: Part)

  /** The links whose child is not in gone, in list order. */
  function Without(links: seq<Link>, gone: set<Part>): (r: seq<Link>)
    ensures forall l <- r :: l in links && l.child !in gone
    ensures forall l <- links :: l.child !in gone ==> l in r
    ensures |r| <= |links|
  {
    if |links| == 0 then []
    else (if links[0].child in gone then [] else [links[0]]) + Without(links[1..], gone)
  }

  /** How many links have p as their child. */
  function ParentCount(links: seq<Link>, p: Part): nat
  {
    if |links| == 0 then 0
    else (if links[0].child == p then 1 else 0) + ParentCount(links[1..], p)
  }

  /** `constraintList.filter(c => c.bodyA === part)`, read off as the children. */
  function ChildrenOf(links: seq<Link>, p: Part): (cs: seq<Part>)
    ensures forall l <- links :: l.parent == PartNode(p) ==> l.child in cs
    ensures forall c <- cs :: Link(PartNode(p), c) in links
  {
    if |links| == 0 then []
    else (if links[0].parent == PartNode(p) then [links[0].child] else []) + ChildrenOf(links[1..], p)
  }

  /** `constraintList.find(c => c.bodyB === part)`, as an index. */
  function ParentLinkIndex(links: seq<Link>, p: Part): (k: Option<nat>)
    ensures k.Some? ==> k.value < |links| && links[k.value].child == p
    ensures k.Some? ==> forall j | 0 <= j < k.value :: links[j].child != p
    ensures k.None? <==> forall l <- links :: l.child != p
  {
    if |links| == 0 then None
    else if links[0].child == p then Some(0)
    else match ParentLinkIndex(links[1..], p)
      case None => None
      case Some(j) => Some(j + 1)
  }

  /** A part is a child exactly when some link names it. */
  lemma {:induction false} ParentCountZeroIffUnlinked(links: seq<Link>, p: Part)
    ensures ParentCount(links, p) == 0 <==> forall l <- links :: l.child != p
  {
    if |links| > 0 {
      ParentCountZeroIffUnlinked(links[1..], p);
      assert forall l <- links :: l == links[0] || l in links[1..];
    }
  }

  /** Appending a link adds one parent to its child and none to any other part. */
  lemma {:induction false} ParentCountAppend(links: seq<Link>, l: Link, p: Part)
    ensures ParentCount(links + [l], p) == ParentCount(links, p) + (if l.child == p then 1 else 0)
  {
    if |links| > 0 {
      assert (links + [l])[1..] == links[1..] + [l];
      ParentCountAppend(links[1..], l, p);
    }
  }

  /** Removing the links of gone leaves the parents of every other part alone. */
  lemma {:induction false} ParentCountWithout(links: seq<Link>, gone: set<Part>, p: Part)
    ensures ParentCount(Without(links, gone), p) == if p in gone then 0 else ParentCount(links, p)
  {
    if |links| > 0 {
      ParentCountWithout(links[1..], gone, p);
      var head := if links[0].child in gone then [] else [links[0]];
      var rest := Without(links[1..], gone);
      assert Without(links, gone) == head + rest;
      if head == [] {
        assert head + rest == rest;
      } else {
        assert (head + rest)[0] == links[0] && (head + rest)[1..] == rest;
      }
    }
  }

  /** Removing nothing keeps the list. */
  lemma {:induction false} WithoutNothing(links: seq<Link>, gone: set<Part>)
    requires forall l <- links :: l.child !in gone
    ensures Without(links, gone) == links
  {
    if |links| > 0 {
      assert forall l <- links[1..] :: l in links;
      WithoutNothing(links[1..], gone);
    }
  }

  /** Removing in two steps is removing the union. */
  lemma {:induction false} WithoutWithout(links: seq<Link>, a: set<Part>, b: set<Part>)
    ensures Without(Without(links, a), b) == Without(links, a + b)
  {
    if |links| > 0 {
      WithoutWithout(links[1..], a, b);
      var head := if links[0].child in a then [] else [links[0]];
      assert Without(links, a) == head + Without(links[1..], a);
      if head == [] {
        assert head + Without(links[1..], a) == Without(links[1..], a);
      } else {
        assert (head + Without(links[1..], a))[1..] == Without(links[1..], a);
      }
    }
  }

  /** Appending a link whose child is gone changes nothing; otherwise the link survives at the end. */
  lemma {:induction false} WithoutAppend(links: seq<Link>, l: Link, gone: set<Part>)
    ensures Without(links + [l], gone) == Without(links, gone) + (if l.child in gone then [] else [l])
  {
    if |links| > 0 {
      assert (links + [l])[1..] == links[1..] + [l];
      WithoutAppend(links[1..], l, gone);
    } else {
      assert [l][1..] == [];
    }
  }

  /**
   * recursiveDetachPart's own step, `constraintList.splice(constraintList.indexOf(found), 1)`
   * for the link `find` returns: when p has at most one parent this removes exactly the
   * links naming p as child.
   */
  lemma RemoveSoleParentLink(links: seq<Link>, p: Part)
    requires ParentCount(links, p) <= 1
    ensures match ParentLinkIndex(links, p)
      case None => links == Without(links, {p})
      case Some(k) => Registry.RemoveViaIndexOf(links, links[k]) == Without(links, {p})
  {
    match ParentLinkIndex(links, p)
    case None =>
      WithoutNothing(links, {p});
    case Some(k) =>
      var i := Registry.IndexOf(links, links[k]);
      assert i == k;
      SoleLinkSplice(links, p, k);
  }

  lemma {:induction false} SoleLinkSplice(links: seq<Link>, p: Part, k: nat)
    requires ParentCount(links, p) <= 1
    requires k < |links| && links[k].child == p
    ensures links[..k] + links[k + 1..] == Without(links, {p})
  {
    if k == 0 {
      ParentCountZeroIffUnlinked(links[1..], p);
      WithoutNothing(links[1..], {p});
      assert links[..0] + links[1..] == links[1..];
    } else {
      var rest := links[1..];
      SoleLinkIsNotFirst(links, p, k);
      SoleLinkSplice(rest, p, k - 1);
      SpliceAfterFirst(links, k);
    }
  }

  /** When the only link to p is at k > 0, the first link is not to p and the rest hold at most one. */
  lemma SoleLinkIsNotFirst(links: seq<Link>, p: Part, k: nat)
    requires ParentCount(links, p) <= 1
    requires 0 < k < |links| && links[k].child == p
    ensures links[0].child != p && ParentCount(links[1..], p) <= 1
  {
    assert links[1..][k - 1] == links[k];
    ParentCountZeroIffUnlinked(links[1..], p);
  }

  /** Splicing out an entry after the first keeps the first in front of the spliced rest. */
  lemma SpliceAfterFirst<T>(s: seq<T>, k: nat)
    requires 0 < k < |s|
    ensures s[..k] + s[k + 1..] == [s[0]] + (s[1..][..k - 1] + s[1..][k..])
  {
    assert s[..k] == [s[0]] + s[1..][..k - 1];
    assert s[k + 1..] == s[1..][k..];
  }

  /** The child snapshot of a part lists each child once when every part has at most one parent. */
  lemma {:induction false} ChildrenOfDistinct(links: seq<Link>, p: Part)
    requires forall l <- links :: ParentCount(links, l.child) <= 1
    ensures Registry.Distinct(ChildrenOf(links, p))
  {
    if |links| > 0 {
      var rest := links[1..];
      forall l <- rest ensures ParentCount(rest, l.child) <= 1 {
        assert l in links;
      }
      ChildrenOfDistinct(rest, p);
      if links[0].parent == PartNode(p) {
        var c := links[0].child;
        assert ParentCount(rest, c) == 0;
        ParentCountZeroIffUnlinked(rest, c);
        assert c !in ChildrenOf(rest, p);
        assert ChildrenOf(links, p) == [c] + ChildrenOf(rest, p);
      }
    }
  }

  /**
   * The ghost attach-order stamps: every linked part has one below the clock, and a
   * parent part's stamp is below its child's, so following parents always ends.
   */
  ghost predicate Stamped(links: seq<Link>, stamp: map<Part, nat>, clock: nat)
  {
    forall l <- links ::
      && l.child in stamp && stamp[l.child] < clock
      && (l.parent.PartNode? ==> l.parent.part in stamp && stamp[l.parent.part] < stamp[l.child])
  }

  /** Every link starting inside S ends inside S. */
  ghost predicate Closed(links: seq<Link>, s: set<Part>)
  {
    forall l <- links :: l.parent.PartNode? && l.parent.part in s ==> l.child in s
  }

  /** Every member of S other than root hangs from a member of S. */
  ghost predicate Rooted(links: seq<Link>, s: set<Part>, root: Part)
  {
    forall q <- s :: q == root || exists l <- links :: l.child == q && l.parent.PartNode? && l.parent.part in s
  }

  /**
   * A set that contains root, is closed under children and hangs from root is the part
   * tree below root: any two such sets are equal.
   */
  lemma SubtreeIsUnique(links: seq<Link>, stamp: map<Part, nat>, clock: nat, root: Part, s1: set<Part>, s2: set<Part>)
    requires Stamped(links, stamp, clock)
    requires root in s1 && Closed(links, s1) && Rooted(links, s1, root)
    requires root in s2 && Closed(links, s2) && Rooted(links, s2, root)
    ensures s1 == s2
  {
    forall q <- s1 ensures q in s2 {
      SubtreeMember(links, stamp, clock, root, s1, s2, q);
    }
    forall q <- s2 ensures q in s1 {
      SubtreeMember(links, stamp, clock, root, s2, s1, q);
    }
  }

  lemma {:induction false} SubtreeMember(links: seq<Link>, stamp: map<Part, nat>, clock: nat, root: Part,
                                         s1: set<Part>, s2: set<Part>, q: Part)
    requires Stamped(links, stamp, clock)
    requires Rooted(links, s1, root)
    requires root in s2 && Closed(links, s2)
    requires q in s1
    ensures q in s2
    decreases if q in stamp then stamp[q] else 0
  {
    if q != root {
      var l :| l in links && l.child == q && l.parent.PartNode? && l.parent.part in s1;
      SubtreeMember(links, stamp, clock, root, s1, s2, l.parent.part);
    }
  }

  /** Every member of s is one of roots or hangs from a member of s. */
  ghost predicate HangsFrom(links: seq<Link>, s: set<Part>, roots: seq<Part>)
  {
    forall q <- s :: q in roots || exists l <- links :: l.child == q && l.parent.PartNode? && l.parent.part in s
  }

  /**
   * One round of recursiveDetachPart's loop: the subtree sub detached from the
   * remaining links keeps the accumulated set closed under children in the original list.
   */
  lemma DetachStepClosed(links: seq<Link>, acc: set<Part>, sub: set<Part>)
    requires Closed(links, acc)
    requires Closed(Without(links, acc), sub)
    ensures Closed(links, acc + sub)
  {
    var rest := Without(links, acc);
    forall l <- links | l.parent.PartNode? && l.parent.part in acc + sub ensures l.child in acc + sub {
      if l.child !in acc {
        assert l in rest;
      }
    }
  }

  /** One round of recursiveDetachPart's loop, all of it: the i-th child's subtree joins the detached set. */
  lemma DetachStep(links: seq<Link>, acc: set<Part>, sub: set<Part>, children: seq<Part>, i: nat)
    requires i < |children|
    requires Closed(links, acc) && HangsFrom(links, acc, children[..i])
    requires forall c <- children[..i] :: c in acc
    requires children[i] in sub
    requires Closed(Without(links, acc), sub) && Rooted(Without(links, acc), sub, children[i])
    ensures Closed(links, acc + sub) && HangsFrom(links, acc + sub, children[..i + 1])
    ensures forall c <- children[..i + 1] :: c in acc + sub
    ensures Without(Without(links, acc), sub) == Without(links, acc + sub)
  {
    DetachStepClosed(links, acc, sub);
    DetachStepHangs(links, acc, sub, children, i);
    WithoutWithout(links, acc, sub);
    assert children[..i + 1] == children[..i] + [children[i]];
  }

  /** One round of the loop: the accumulated set still hangs from the children handled so far. */
  lemma DetachStepHangs(links: seq<Link>, acc: set<Part>, sub: set<Part>, children: seq<Part>, i: nat)
    requires i < |children|
    requires HangsFrom(links, acc, children[..i])
    requires Rooted(Without(links, acc), sub, children[i])
    ensures HangsFrom(links, acc + sub, children[..i + 1])
  {
    var rest := Without(links, acc);
    forall q <- acc + sub
      ensures q in children[..i + 1] || exists l <- links :: l.child == q && l.parent.PartNode? && l.parent.part in acc + sub
    {
      if q in sub && q != children[i] {
        var l :| l in rest && l.child == q && l.parent.PartNode? && l.parent.part in sub;
        assert l in links;
      } else if q in sub {
        assert children[..i + 1][i] == q;
      } else if q in children[..i] {
        assert children[..i] <= children[..i + 1];
      } else {
        var l :| l in links && l.child == q && l.parent.PartNode? && l.parent.part in acc;
        assert l.parent.part in acc + sub;
      }
    }
  }

  /** After the loop: adding the part itself gives the closed subtree rooted at it. */
  lemma DetachFinish(links: seq<Link>, acc: set<Part>, part: Part, children: seq<Part>)
    requires children == ChildrenOf(links, part)
    requires Closed(links, acc) && HangsFrom(links, acc, children)
    requires forall c <- children :: c in acc
    ensures Closed(links, acc + {part}) && Rooted(links, acc + {part}, part)
  {
    forall q <- acc + {part}
      ensures q == part || exists l <- links :: l.child == q && l.parent.PartNode? && l.parent.part in acc + {part}
    {
      if q != part && q in children {
        assert Link(PartNode(part), q) in links;
      } else if q != part {
        var l :| l in links && l.child == q && l.parent.PartNode? && l.parent.part in acc;
        assert l.parent.part in acc + {part};
      }
    }
  }

  /**
   * The shape of the ship, given the set of parts that are attached: every link hangs
   * from the player or an attached part, and a part is attached exactly when it has a
   * parent, which it has at most one of.
   */
  ghost predicate ShapedBy(links: seq<Link>, parts: set<Part>, attached: set<Part>)
  {
    && attached <= parts
    && (forall l <- links :: l.child in parts && (l.parent.PartNode? ==> l.parent.part in attached))
    && (forall p <- parts :: ParentCount(links, p) <= 1 && (p in attached <==> ParentCount(links, p) == 1))
  }

  /** In a ship of that shape, every part a link names as child is attached. */
  lemma LinkedChildIsAttached(links: seq<Link>, parts: set<Part>, attached: set<Part>, l: Link)
    requires ShapedBy(links, parts, attached) && l in links
    ensures l.child in attached
  {
    ParentCountZeroIffUnlinked(links, l.child);
  }

  /** The tree below an attached part is attached. */
  lemma SubtreeIsAttached(links: seq<Link>, parts: set<Part>, attached: set<Part>, root: Part, s: set<Part>)
    requires ShapedBy(links, parts, attached) && root in attached && Rooted(links, s, root)
    ensures s <= attached
  {
    forall q <- s ensures q in attached {
      if q != root {
        var l :| l in links && l.child == q && l.parent.PartNode? && l.parent.part in s;
        LinkedChildIsAttached(links, parts, attached, l);
      }
    }
  }

  /** Attaching an unattached part under the player or an attached part keeps the shape. */
  lemma AttachKeepsShape(links: seq<Link>, parts: set<Part>, attached: set<Part>, parent: Node, part: Part)
    requires ShapedBy(links, parts, attached)
    requires part in parts && part !in attached
    requires parent.PartNode? ==> parent.part in attached
    ensures ShapedBy(links + [Link(parent, part)], parts, attached + {part})
  {
    forall p <- parts
      ensures ParentCount(links + [Link(parent, part)], p) == ParentCount(links, p) + (if p == part then 1 else 0)
    {
      ParentCountAppend(links, Link(parent, part), p);
    }
  }

  /** Attaching re-stamps the part with the clock, which is above every stamp in use. */
  lemma AttachKeepsStamps(links: seq<Link>, parts: set<Part>, attached: set<Part>, stamp: map<Part, nat>, clock: nat,
                          parent: Node, part: Part)
    requires ShapedBy(links, parts, attached) && Stamped(links, stamp, clock)
    requires part in parts && part !in attached
    requires parent.PartNode? ==> parent.part in attached
    ensures Stamped(links + [Link(parent, part)], stamp[part := clock], clock + 1)
  {
    ParentCountZeroIffUnlinked(links, part);
    if parent.PartNode? {
      ParentCountZeroIffUnlinked(links, parent.part);
    }
    var links', stamp' := links + [Link(parent, part)], stamp[part := clock];
    forall l <- links'
      ensures l.child in stamp' && stamp'[l.child] < clock + 1
      ensures l.parent.PartNode? ==> l.parent.part in stamp' && stamp'[l.parent.part] < stamp'[l.child]
    {
      if l in links {
        assert l.child != part;
        assert l.parent.PartNode? ==> l.parent.part != part;
      } else if l.parent.PartNode? {
        assert ParentCount(links, l.parent.part) == 1;
        var l0 :| l0 in links && l0.child == l.parent.part;
        assert l.parent.part in stamp && stamp[l.parent.part] < clock;
      }
    }
  }

  /** Detaching a set closed under children keeps the shape, with that set no longer attached. */
  lemma DetachKeepsShape(links: seq<Link>, parts: set<Part>, attached: set<Part>, sub: set<Part>)
    requires ShapedBy(links, parts, attached)
    requires Closed(links, sub)
    ensures ShapedBy(Without(links, sub), parts, attached - sub)
  {
    var rest := Without(links, sub);
    forall l <- rest ensures l.child in parts && (l.parent.PartNode? ==> l.parent.part in attached - sub) {
      assert l in links;
    }
    forall p <- parts ensures ParentCount(rest, p) == if p in sub then 0 else ParentCount(links, p) {
      ParentCountWithout(links, sub, p);
    }
  }

  /** Dropping links keeps the stamps in order. */
  lemma StampedWithout(links: seq<Link>, stamp: map<Part, nat>, clock: nat, gone: set<Part>)
    requires Stamped(links, stamp, clock)
    ensures Stamped(Without(links, gone), stamp, clock)
  {
    forall l <- Without(links, gone) ensures l in links {
    }
  }
}
