/** The proof-of-reserves tree of a list of liabilities: it does not depend on the list's
  order, every entry it issues verifies, and nothing but its liabilities verifies as a leaf
  (services/api/src/repositories/proof.rs). */
module Reserves {
  import opened Merkle

  datatype Liability = Liability(user: string, asset: string, total: string)

  datatype Leaf = Leaf(liability: Liability, payload: string, digest: string)

  datatype Tree = Tree(leaves: seq<Leaf>, root: string)

  datatype ProofEntry = ProofEntry(asset: string, total: string, payload: string, digest: string, siblings: seq<string>)

  function LeafPayload(l: Liability): string {
    LEAF_PREFIX + ":" + l.user + ":" + l.asset + ":" + l.total
  }

  /** User ids and canonical decimals have no colon; an asset symbol may. */
  predicate WellFormed(l: Liability) {
    Plain(l.user) && Plain(l.total)
  }

  // ---- The order of leaves -------------------------------------------------------

  predicate RowBefore(a: Liability, b: Liability) {
    if a.asset != b.asset then Before(a.asset, b.asset)
    else if a.user != b.user then Before(a.user, b.user)
    else Before(a.total, b.total)
  }

  lemma RowBeforeTotal(a: Liability, b: Liability)
    ensures RowBefore(a, b) || RowBefore(b, a)
  {
    BeforeTotal(a.asset, b.asset);
    BeforeTotal(a.user, b.user);
    BeforeTotal(a.total, b.total);
  }

  lemma RowBeforeAntisymmetric(a: Liability, b: Liability)
    requires RowBefore(a, b) && RowBefore(b, a)
    ensures a == b
  {
    if a.asset != b.asset {
      BeforeAntisymmetric(a.asset, b.asset);
    } else if a.user != b.user {
      BeforeAntisymmetric(a.user, b.user);
    } else {
      BeforeAntisymmetric(a.total, b.total);
    }
  }

  lemma RowBeforeTransitive(a: Liability, b: Liability, c: Liability)
    requires RowBefore(a, b) && RowBefore(b, c)
    ensures RowBefore(a, c)
  {
    hide Before;
    if a.asset == c.asset {
      if a.asset != b.asset {
        BeforeAntisymmetric(a.asset, b.asset);
      } else if a.user == c.user && a.user != b.user {
        BeforeAntisymmetric(a.user, b.user);
      } else if a.user != b.user && b.user != c.user {
        BeforeTransitive(a.user, b.user, c.user);
      } else if a.user == b.user == c.user {
        BeforeTransitive(a.total, b.total, c.total);
      }
    } else if a.asset != b.asset && b.asset != c.asset {
      BeforeTransitive(a.asset, b.asset, c.asset);
    }
  }

  predicate InOrder(s: seq<Liability>) {
    forall i, j :: 0 <= i < j < |s| ==> RowBefore(s[i], s[j])
  }

  function Place(s: seq<Liability>, l: Liability): seq<Liability> {
    if s == [] || RowBefore(l, s[0]) then [l] + s else [s[0]] + Place(s[1..], l)
  }

  function Ordered(s: seq<Liability>): seq<Liability> {
    if s == [] then [] else Place(Ordered(s[1..]), s[0])
  }

  lemma {:induction false} PlaceKeeps(s: seq<Liability>, l: Liability)
    requires InOrder(s)
    ensures InOrder(Place(s, l)) && multiset(Place(s, l)) == multiset(s) + multiset{l}
    ensures forall x :: x in Place(s, l) ==> x == l || x in s
  {
    hide RowBefore;
    if s == [] || RowBefore(l, s[0]) {
      forall j | 0 <= j < |s| ensures RowBefore(l, s[j]) {
        if j > 0 { RowBeforeTransitive(l, s[0], s[j]); }
      }
    } else {
      var rest := Place(s[1..], l);
      PlaceKeeps(s[1..], l);
      RowBeforeTotal(l, s[0]);
      assert s == [s[0]] + s[1..];
      forall j | 0 <= j < |rest| ensures RowBefore(s[0], rest[j]) {
        assert rest[j] in rest;
      }
    }
  }

  lemma {:induction false} OrderedSorts(s: seq<Liability>)
    ensures InOrder(Ordered(s)) && multiset(Ordered(s)) == multiset(s)
  {
    if s != [] {
      OrderedSorts(s[1..]);
      PlaceKeeps(Ordered(s[1..]), s[0]);
      assert s == [s[0]] + s[1..];
    }
  }

  lemma {:induction false} OneOrder(s: seq<Liability>, t: seq<Liability>)
    requires InOrder(s) && InOrder(t) && multiset(s) == multiset(t)
    ensures s == t
  {
    hide RowBefore;
    SameLength(s, t);
    if s != [] {
      FirstIsLeast(s, t[0]);
      FirstIsLeast(t, s[0]);
      RowBeforeAntisymmetric(s[0], t[0]);
      SameRest(s, t);
      OneOrder(s[1..], t[1..]);
      assert s == [s[0]] + s[1..] && t == [t[0]] + t[1..];
    }
  }

  lemma SameLength(s: seq<Liability>, t: seq<Liability>)
    requires multiset(s) == multiset(t)
    ensures |s| == |t| && (s != [] ==> t[0] in s && s[0] in t)
  {
    assert |multiset(s)| == |s| && |multiset(t)| == |t|;
    if s != [] { assert t[0] in multiset(s) && s[0] in multiset(t); }
  }

  lemma SameRest(s: seq<Liability>, t: seq<Liability>)
    requires s != [] && t != [] && s[0] == t[0] && multiset(s) == multiset(t)
    ensures multiset(s[1..]) == multiset(t[1..])
  {
    assert s == [s[0]] + s[1..] && t == [t[0]] + t[1..];
    assert multiset(s[1..]) == multiset(s) - multiset{s[0]};
  }

  lemma FirstIsLeast(s: seq<Liability>, l: Liability)
    requires InOrder(s) && l in s
    ensures RowBefore(s[0], l)
  {
    RowBeforeTotal(l, l);
  }

  // ---- Trees ---------------------------------------------------------------------

  function LeafOf(h: string -> string, l: Liability): Leaf {
    Leaf(l, LeafPayload(l), h(LeafPayload(l)))
  }

  function LeavesOf(h: string -> string, s: seq<Liability>): seq<Leaf> {
    seq(|s|, i requires 0 <= i < |s| => LeafOf(h, s[i]))
  }

  function Digests(leaves: seq<Leaf>): seq<string> {
    seq(|leaves|, i requires 0 <= i < |leaves| => leaves[i].digest)
  }

  function NewTree(h: string -> string, liabilities: seq<Liability>): Tree {
    var leaves := LeavesOf(h, Ordered(liabilities));
    Tree(leaves, Root(h, Digests(leaves)))
  }

  /** The root, and all else of the tree, is that of the liabilities in any order. */
  lemma OrderDoesNotMatter(h: string -> string, a: seq<Liability>, b: seq<Liability>)
    requires multiset(a) == multiset(b)
    ensures NewTree(h, a) == NewTree(h, b)
  {
    OrderedSorts(a);
    OrderedSorts(b);
    OneOrder(Ordered(a), Ordered(b));
  }

  /** The leaves stand in the order of their assets, those of one asset in that of the users, and those
    of one user in that of the totals; each is the digest of its liability's text. */
  lemma LeavesAreInOrder(h: string -> string, liabilities: seq<Liability>, i: nat, j: nat, k: nat)
    requires i < j < |NewTree(h, liabilities).leaves|
    ensures var leaves := NewTree(h, liabilities).leaves; var a, b := leaves[i].liability, leaves[j].liability;
      && (SmallerAt(b.asset, a.asset, k) ==> a.asset == b.asset)
      && (a.asset == b.asset && SmallerAt(b.user, a.user, k) ==> a.user == b.user)
      && (a.asset == b.asset && a.user == b.user && SmallerAt(b.total, a.total, k) ==> a.total == b.total)
      && leaves[i].digest == h("aether:por:v1:leaf:" + a.user + ":" + a.asset + ":" + a.total)
  {
    OrderedSorts(liabilities);
    var s := Ordered(liabilities);
    var a, b := s[i], s[j];
    assert RowBefore(a, b);
    assert LEAF_PREFIX + ":" == "aether:por:v1:leaf:";
    if SmallerAt(b.asset, a.asset, k) { SmallerIsBefore(b.asset, a.asset, k); }
    if SmallerAt(b.user, a.user, k) { SmallerIsBefore(b.user, a.user, k); }
    if SmallerAt(b.total, a.total, k) { SmallerIsBefore(b.total, a.total, k); }
    hide Before, SmallerAt, Ordered;
  }

  /** `entries_for_user`, from the leaf at `from` on. */
  function Entries(h: string -> string, tree: Tree, user: string, from: nat): seq<ProofEntry>
    requires from <= |tree.leaves|
    decreases |tree.leaves| - from
  {
    if from == |tree.leaves| then []
    else
      var leaf := tree.leaves[from];
      var rest := Entries(h, tree, user, from + 1);
      if leaf.liability.user == user then
        [ProofEntry(leaf.liability.asset, leaf.liability.total, leaf.payload, leaf.digest,
                    Proof(h, Digests(tree.leaves), from))] + rest
      else rest
  }

  lemma LeafFrom(h: string -> string, liabilities: seq<Liability>, i: nat)
    requires i < |NewTree(h, liabilities).leaves|
    ensures var leaf := NewTree(h, liabilities).leaves[i];
      leaf.liability in liabilities && leaf == LeafOf(h, leaf.liability)
  {
    OrderedSorts(liabilities);
    assert Ordered(liabilities)[i] in multiset(Ordered(liabilities));
  }

  lemma LeafFor(h: string -> string, liabilities: seq<Liability>, l: Liability) returns (i: nat)
    requires l in liabilities
    ensures var leaves := NewTree(h, liabilities).leaves; i < |leaves| && leaves[i] == LeafOf(h, l)
  {
    OrderedSorts(liabilities);
    assert l in multiset(liabilities);
    assert l in Ordered(liabilities);
    i :| 0 <= i < |Ordered(liabilities)| && Ordered(liabilities)[i] == l;
  }

  /** Each entry verifies, its proof is no longer than the tree is high, and it is about one of
    the user's liabilities. */
  ghost predicate Vouches(h: string -> string, liabilities: seq<Liability>, user: string, e: ProofEntry) {
    && Accepts(h, e.payload, e.siblings, NewTree(h, liabilities).root)
    && (forall k :: |liabilities| <= Pow2(k) ==> |e.siblings| <= k)
    && Liability(user, e.asset, e.total) in liabilities
    && e.payload == LeafPayload(Liability(user, e.asset, e.total))
  }

  lemma LeafVouches(h: string -> string, liabilities: seq<Liability>, i: nat)
    requires i < |NewTree(h, liabilities).leaves|
    ensures var tree := NewTree(h, liabilities); var leaf := tree.leaves[i];
      Vouches(h, liabilities, leaf.liability.user,
              ProofEntry(leaf.liability.asset, leaf.liability.total, leaf.payload, leaf.digest, Proof(h, Digests(tree.leaves), i)))
  {
    var digests := Digests(NewTree(h, liabilities).leaves);
    LeafFrom(h, liabilities, i);
    ProofClimbs(h, digests, i);
    OrderedSorts(liabilities);
    assert |multiset(Ordered(liabilities))| == |multiset(liabilities)|;
    forall k | |liabilities| <= Pow2(k) ensures |Proof(h, digests, i)| <= k {
      ProofIsShort(h, digests, i, k);
    }
  }

  /** All entries issued to a user verify, and every liability of the user has one. */
  lemma {:induction false} EntriesVouch(h: string -> string, liabilities: seq<Liability>, user: string, from: nat)
    requires from <= |NewTree(h, liabilities).leaves|
    ensures var tree := NewTree(h, liabilities); var entries := Entries(h, tree, user, from);
      && (forall e :: e in entries ==> Vouches(h, liabilities, user, e))
      && (forall j :: from <= j < |tree.leaves| && tree.leaves[j].liability.user == user ==>
            exists e :: e in entries && e.asset == tree.leaves[j].liability.asset && e.total == tree.leaves[j].liability.total)
    decreases |NewTree(h, liabilities).leaves| - from
  {
    var tree := NewTree(h, liabilities);
    hide NewTree, Vouches, Proof;
    if from < |tree.leaves| {
      EntriesVouch(h, liabilities, user, from + 1);
      LeafVouches(h, liabilities, from);
      var leaf, rest := tree.leaves[from], Entries(h, tree, user, from + 1);
      if leaf.liability.user == user {
        var e := ProofEntry(leaf.liability.asset, leaf.liability.total, leaf.payload, leaf.digest,
                            Proof(h, Digests(tree.leaves), from));
        assert Entries(h, tree, user, from) == [e] + rest;
        assert e in [e] + rest;
        assert forall d :: d in rest ==> d in [e] + rest;
      }
    }
  }

  /** The entries of a user are its liabilities, neither more nor fewer, and each verifies
    against the published root. */
  lemma UsersCanVerify(h: string -> string, liabilities: seq<Liability>, l: Liability)
    ensures var entries := Entries(h, NewTree(h, liabilities), l.user, 0);
      && (forall e :: e in entries ==> Vouches(h, liabilities, l.user, e))
      && (l in liabilities <==> exists e :: e in entries && e.asset == l.asset && e.total == l.total)
  {
    EntriesVouch(h, liabilities, l.user, 0);
    if l in liabilities { var i := LeafFor(h, liabilities, l); }
    hide NewTree, Entries, Accepts, LeafPayload;
  }

  // ---- Binding -------------------------------------------------------------------

  function PayloadsOf(s: seq<Liability>): seq<string> {
    seq(|s|, i requires 0 <= i < |s| => LeafPayload(s[i]))
  }

  /** A text in the form of a leaf. */
  predicate LeafForm(text: string) {
    LEAF_PREFIX + ":" <= text
  }

  lemma LeafFormIsNoNode(text: string)
    requires LeafForm(text)
    ensures NotNode(text)
  {
    forall first, second ensures text != NodePayload(first, second) {
      assert (LEAF_PREFIX + ":")[14] == 'l' && NodePayload(first, second)[14] == 'n';
      assert text[14] == (LEAF_PREFIX + ":")[14];
    }
  }

  lemma LeafPayloadForm(l: Liability)
    ensures LeafForm(LeafPayload(l)) && LeafPayload(l) != EMPTY_ROOT_PAYLOAD
  {
    var p := LEAF_PREFIX + ":";
    assert LeafPayload(l) == p + (l.user + ":" + l.asset + ":" + l.total);
    assert LeafPayload(l)[14] == p[14] == 'l' && EMPTY_ROOT_PAYLOAD[14] == 'e';
  }

  lemma LeafPayloadInjective(l: Liability, m: Liability)
    requires WellFormed(l) && WellFormed(m) && LeafPayload(l) == LeafPayload(m)
    ensures l == m
  {
    var p := LEAF_PREFIX + ":";
    SplitLast(p + l.user + ":" + l.asset, l.total, p + m.user + ":" + m.asset, m.total);
    assert p + l.user + ":" + l.asset == p + (l.user + ":" + l.asset);
    assert p + m.user + ":" + m.asset == p + (m.user + ":" + m.asset);
    StripPrefix(p, l.user + ":" + l.asset, m.user + ":" + m.asset);
    SplitFirst(l.user, l.asset, m.user, m.asset);
  }

  lemma TreeGround(h: string -> string, liabilities: seq<Liability>)
    ensures Ground(h, PayloadsOf(Ordered(liabilities)), Digests(NewTree(h, liabilities).leaves))
  {
    var s := Ordered(liabilities);
    forall i | 0 <= i < |s| ensures NotNode(PayloadsOf(s)[i]) {
      LeafPayloadForm(s[i]);
      LeafFormIsNoNode(LeafPayload(s[i]));
    }
  }

  /** Any text in leaf form that is accepted against the root, with any siblings whatever, is
    the leaf text of one of the liabilities. */
  lemma LeafFormIsLiability(h: string -> string, liabilities: seq<Liability>, text: string, siblings: seq<string>)
    returns (l: Liability)
    requires Ideal(h) && LeafForm(text) && Accepts(h, text, siblings, NewTree(h, liabilities).root)
    ensures l in liabilities && text == LeafPayload(l)
  {
    var s := Ordered(liabilities);
    TreeGround(h, liabilities);
    LeafFormIsNoNode(text);
    AcceptedIsLeaf(h, PayloadsOf(s), Digests(NewTree(h, liabilities).leaves), text, siblings);
    assert text[14] == (LEAF_PREFIX + ":")[14] == 'l' && EMPTY_ROOT_PAYLOAD[14] == 'e';
    var i :| 0 <= i < |PayloadsOf(s)| && PayloadsOf(s)[i] == text;
    l := s[i];
    OrderedSorts(liabilities);
    assert l in multiset(s);
  }

  /** A liability can be proved against the root, with some siblings, exactly when it is one
    of those the root commits to. */
  lemma ProvableIffCommitted(h: string -> string, liabilities: seq<Liability>, l: Liability)
    requires Ideal(h) && WellFormed(l) && forall m :: m in liabilities ==> WellFormed(m)
    ensures (exists siblings :: Accepts(h, LeafPayload(l), siblings, NewTree(h, liabilities).root)) <==> l in liabilities
  {
    var root := NewTree(h, liabilities).root;
    if l in liabilities {
      var i := LeafFor(h, liabilities, l);
      LeafVouches(h, liabilities, i);
      assert Accepts(h, LeafPayload(l), Proof(h, Digests(NewTree(h, liabilities).leaves), i), root);
    }
    if siblings :| Accepts(h, LeafPayload(l), siblings, root) {
      LeafPayloadForm(l);
      var m := LeafFormIsLiability(h, liabilities, LeafPayload(l), siblings);
      LeafPayloadInjective(l, m);
    }
  }

  /** The leaf form matters: with two liabilities or more, the text behind the root itself is
    accepted without any siblings, and is no liability's. */
  lemma RootTextIsAccepted(h: string -> string, liabilities: seq<Liability>) returns (text: string)
    requires |liabilities| >= 2
    ensures Accepts(h, text, [], NewTree(h, liabilities).root) && !LeafForm(text)
  {
    OrderedSorts(liabilities);
    assert |multiset(Ordered(liabilities))| == |multiset(liabilities)|;
    var first, second := RootIsNode(h, Digests(NewTree(h, liabilities).leaves));
    text := NodePayload(first, second);
    if LeafForm(text) { LeafFormIsNoNode(text); }
  }

  lemma {:induction false} RootIsNode(h: string -> string, level: seq<string>) returns (first: string, second: string)
    requires |level| >= 2
    ensures Root(h, level) == h(NodePayload(first, second))
    decreases |level|
  {
    var up := NextLevel(h, level);
    if |level| == 2 {
      first, second := HashPairIsNode(h, level[0], level[1]);
      assert up == [HashPair(h, level[0], level[1])];
    } else {
      first, second := RootIsNode(h, up);
    }
  }
}
