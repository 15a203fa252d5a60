/**
 Capabilities: the derivation table, revocation by work stack, and what every run keeps.
 Revocation stops at nodes already revoked; it still reaches everything because revoked nodes
 only ever have revoked children.
 */
module KernelCaps {
  import opened Bytes
  import opened KernelState

  /** Children were minted after their parent and name the same object. */
  ghost predicate Forest(nodes: seq<CapNode>) {
    forall i, j | 0 <= i < |nodes| && 0 <= j < |nodes[i].children| ::
      var c := nodes[i].children[j]; i < c < |nodes| && nodes[c].kind == nodes[i].kind
  }

  /** Child `c` of a revoked node is revoked, unless it is in `todo`. */
  ghost predicate Closed(nodes: seq<CapNode>, todo: seq<nat>) {
    forall i, c: nat | 0 <= i < |nodes| && nodes[i].revoked && c in nodes[i].children ::
      c in todo || (c < |nodes| && nodes[c].revoked)
  }

  ghost predicate CapsOk(nodes: seq<CapNode>) {
    Forest(nodes) && Closed(nodes, [])
  }

  /** `b` has the nodes of `a` with the same kinds, badges and children, some of them revoked. */
  ghost predicate SameShape(a: seq<CapNode>, b: seq<CapNode>) {
    |a| == |b| && forall i | 0 <= i < |a| :: b[i] == a[i].(revoked := b[i].revoked)
  }

  lemma {:induction false} DerivesSame(a: seq<CapNode>, b: seq<CapNode>, x: nat, y: nat)
    requires SameShape(a, b) && Derives(a, x, y)
    ensures Derives(b, x, y)
    decreases |a| - x
  {
    if x != y {
      var j :| 0 <= j < |a[x].children| && x < a[x].children[j] && Derives(a, a[x].children[j], y);
      DerivesSame(a, b, a[x].children[j], y);
      assert x < b[x].children[j] && Derives(b, b[x].children[j], y);
    }
  }

  lemma {:induction false} DerivesChild(nodes: seq<CapNode>, x: nat, y: nat, c: nat)
    requires Forest(nodes) && Derives(nodes, x, y) && y < |nodes| && c in nodes[y].children
    ensures Derives(nodes, x, c)
    decreases |nodes| - x
  {
    if x == y {
      var j :| 0 <= j < |nodes[y].children| && nodes[y].children[j] == c;
      assert x < nodes[x].children[j] && Derives(nodes, nodes[x].children[j], c);
    } else {
      var j :| 0 <= j < |nodes[x].children| && x < nodes[x].children[j] && Derives(nodes, nodes[x].children[j], y);
      DerivesChild(nodes, nodes[x].children[j], y, c);
    }
  }

  lemma {:induction false} DerivesBounds(nodes: seq<CapNode>, x: nat, y: nat)
    requires Derives(nodes, x, y)
    ensures x <= y < |nodes|
    decreases |nodes| - x
  {
    if x != y {
      var j :| 0 <= j < |nodes[x].children| && x < nodes[x].children[j] && Derives(nodes, nodes[x].children[j], y);
      DerivesBounds(nodes, nodes[x].children[j], y);
    }
  }

  /** Deriving never changes what a capability is for: a copy of a copy names the same object. */
  lemma {:induction false} DerivedKind(nodes: seq<CapNode>, x: nat, y: nat)
    requires Forest(nodes) && Derives(nodes, x, y)
    ensures y < |nodes| && nodes[y].kind == nodes[x].kind
    decreases |nodes| - x
  {
    if x != y {
      var j :| 0 <= j < |nodes[x].children| && x < nodes[x].children[j] && Derives(nodes, nodes[x].children[j], y);
      DerivedKind(nodes, nodes[x].children[j], y);
    }
  }

  /** Everything derived from a revoked node is revoked. */
  lemma {:induction false} RevokedBelow(nodes: seq<CapNode>, x: nat, y: nat)
    requires Closed(nodes, []) && Derives(nodes, x, y) && nodes[x].revoked
    ensures y < |nodes| && nodes[y].revoked
    decreases |nodes| - x
  {
    if x != y {
      var j :| 0 <= j < |nodes[x].children| && x < nodes[x].children[j] && Derives(nodes, nodes[x].children[j], y);
      assert nodes[x].children[j] in nodes[x].children;
      RevokedBelow(nodes, nodes[x].children[j], y);
    }
  }

  /** The global node vector. */
  class CapTable {
    var nodes: seq<CapNode>

    constructor ()
      ensures nodes == [] && CapsOk(nodes)
    {
      nodes := [];
    }

    method MintRoot(kind: CapKind) returns (id: nat)
      requires CapsOk(nodes)
      modifies this
      ensures id == old(|nodes|) && nodes == old(nodes) + [CapNode(kind, 0, [], false)]
      ensures CapsOk(nodes)
    {
      id := |nodes|;
      nodes := nodes + [CapNode(kind, 0, [], false)];
    }

    method MintDerived(parent: nat, badge: nat) returns (id: Option<nat>)
      requires CapsOk(nodes)
      modifies this
      ensures id.Some? <==> parent < old(|nodes|) && !old(nodes)[parent].revoked
      ensures id.None? ==> nodes == old(nodes)
      ensures id.Some? ==> id.value == old(|nodes|) && nodes == Grown(old(nodes), parent, badge)
      ensures CapsOk(nodes)
    {
      id := None;
      if parent < |nodes| && !nodes[parent].revoked {
        GrownOk(nodes, parent, badge);
        id := Some(|nodes|);
        var kind := nodes[parent].kind;
        nodes := nodes + [CapNode(kind, badge, [], false)];
        nodes := nodes[parent := nodes[parent].(children := nodes[parent].children + [id.value])];
      }
    }

    method Lookup(node: nat) returns (r: Option<(CapKind, nat)>)
      ensures r == Resolve(nodes, node)
    {
      if node < |nodes| && !nodes[node].revoked {
        r := Some((nodes[node].kind, nodes[node].badge));
      } else {
        r := None;
      }
    }

    /** Marks exactly `node` and everything derived from it. */
    method Revoke(node: nat)
      requires CapsOk(nodes)
      modifies this
      ensures nodes == Revoked(old(nodes), node) && CapsOk(nodes)
    {
      var stack: seq<nat> := [node];
      ghost var was := nodes;
      ghost var live := set i | 0 <= i < |nodes| && !nodes[i].revoked;
      while stack != []
        invariant Progress(was, nodes, stack, node)
        invariant live == set i | 0 <= i < |nodes| && !nodes[i].revoked
        decreases live, |stack|
      {
        hide Progress;
        var id := stack[|stack| - 1];
        if id < |nodes| && !nodes[id].revoked {
          PopFresh(was, nodes, stack, node);
          stack := stack[..|stack| - 1] + nodes[id].children;
          nodes := nodes[id := nodes[id].(revoked := true)];
          assert id in live;
          live := live - {id};
        } else {
          PopStale(was, nodes, stack, node);
          stack := stack[..|stack| - 1];
        }
      }
      RevokeDone(was, nodes, node);
    }
  }

  /** What the work stack keeps: only descendants of `root` are marked, and whatever is still to
      mark hangs below the stack. */
  ghost predicate Progress(was: seq<CapNode>, now: seq<CapNode>, stack: seq<nat>, root: nat) {
    && Forest(was) && Closed(was, []) && SameShape(was, now)
    && Closed(now, stack)
    && (root in stack || root >= |now| || now[root].revoked)
    && (forall s | s in stack && s < |was| :: Derives(was, root, s))
    && (forall i | 0 <= i < |was| :: was[i].revoked ==> now[i].revoked)
    && (forall i | 0 <= i < |was| :: now[i].revoked ==> was[i].revoked || Derives(was, root, i))
  }

  lemma PopFresh(was: seq<CapNode>, now: seq<CapNode>, stack: seq<nat>, root: nat)
    requires Progress(was, now, stack, root) && stack != []
    requires var id := stack[|stack| - 1]; id < |now| && !now[id].revoked
    ensures var id := stack[|stack| - 1];
            Progress(was, now[id := now[id].(revoked := true)], stack[..|stack| - 1] + now[id].children, root)
  {
    hide Derives;
    var id := stack[|stack| - 1];
    var now', stack' := now[id := now[id].(revoked := true)], stack[..|stack| - 1] + now[id].children;
    assert id in stack && Derives(was, root, id);
    forall s | s in stack' && s < |was| ensures Derives(was, root, s) {
      if s in now[id].children {
        DerivesChild(was, root, id, s);
      } else {
        assert s in stack;
      }
    }
    forall s | s in stack && s != id ensures s in stack' {
      var j :| 0 <= j < |stack| && stack[j] == s;
      assert stack'[j] == s;
    }
  }

  lemma PopStale(was: seq<CapNode>, now: seq<CapNode>, stack: seq<nat>, root: nat)
    requires Progress(was, now, stack, root) && stack != []
    requires var id := stack[|stack| - 1]; !(id < |now| && !now[id].revoked)
    ensures Progress(was, now, stack[..|stack| - 1], root)
  {
    hide Derives;
    var id, stack' := stack[|stack| - 1], stack[..|stack| - 1];
    forall s | s in stack && s != id ensures s in stack' {
      var j :| 0 <= j < |stack| && stack[j] == s;
      assert stack'[j] == s;
    }
    forall i, c: nat | 0 <= i < |now| && now[i].revoked && c in now[i].children
      ensures c in stack' || (c < |now| && now[c].revoked)
    {
      assert c in was[i].children;
    }
  }

  lemma RevokeDone(was: seq<CapNode>, now: seq<CapNode>, root: nat)
    requires Progress(was, now, [], root)
    ensures now == Revoked(was, root) && CapsOk(now)
  {
    forall i | 0 <= i < |was| ensures now[i] == Revoked(was, root)[i] {
      if Derives(was, root, i) {
        DerivesSame(was, now, root, i);
        RevokedBelow(now, root, i);
      }
    }
  }

  // ----- the table under the kernel's steps -----

  /** `nodes` with a child of `parent` appended. */
  function Grown(nodes: seq<CapNode>, parent: nat, badge: nat): seq<CapNode>
    requires parent < |nodes|
  {
    nodes[parent := nodes[parent].(children := nodes[parent].children + [|nodes|])] + [CapNode(nodes[parent].kind,
        badge, [], false)]
  }

  lemma GrownOk(nodes: seq<CapNode>, parent: nat, badge: nat)
    requires CapsOk(nodes) && parent < |nodes| && !nodes[parent].revoked
    ensures CapsOk(Grown(nodes, parent, badge)) && Kept(nodes, Grown(nodes, parent, badge))
  {
  }

  lemma {:induction false} RevokedOk(nodes: seq<CapNode>, root: nat)
    requires CapsOk(nodes)
    ensures CapsOk(Revoked(nodes, root)) && Kept(nodes, Revoked(nodes, root))
  {
    hide Derives;
    var now := Revoked(nodes, root);
    forall i, c: nat | 0 <= i < |now| && now[i].revoked && c in now[i].children
      ensures c < |now| && now[c].revoked
    {
      assert c in nodes[i].children;
      if !nodes[i].revoked {
        DerivesChild(nodes, root, i, c);
      }
    }
  }

  /** Nodes are never removed, never change kind or badge, and are never un-revoked. */
  ghost predicate Kept(a: seq<CapNode>, b: seq<CapNode>) {
    && |a| <= |b|
    && forall i | 0 <= i < |a| :: b[i].kind == a[i].kind && b[i].badge == a[i].badge && (a[i].revoked ==> b[i].revoked)
                                  && a[i].children <= b[i].children
  }

  /** How one step changes the table. */
  ghost predicate TableStep(a: seq<CapNode>, b: seq<CapNode>) {
    || b == a
    || (exists kind :: b == a + [CapNode(kind, 0, [], false)])
    || (exists p, badge | 0 <= p < |a| && !a[p].revoked :: b == Grown(a, p, badge))
    || (exists n :: b == Revoked(a, n))
  }

  lemma TableStepOk(a: seq<CapNode>, b: seq<CapNode>)
    requires CapsOk(a) && TableStep(a, b)
    ensures CapsOk(b) && Kept(a, b)
  {
    hide Revoked, Grown;
    if b != a && !(exists kind :: b == a + [CapNode(kind, 0, [], false)]) {
      if p, badge :| 0 <= p < |a| && !a[p].revoked && b == Grown(a, p, badge) {
        GrownOk(a, p, badge);
      } else {
        var n :| b == Revoked(a, n);
        RevokedOk(a, n);
      }
    }
  }
}
