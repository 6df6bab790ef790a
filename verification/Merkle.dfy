/** Proof-of-reserves Merkle trees (services/api/src/repositories/proof.rs). Texts are strings
  as the program formats them; the digest is any function `h` from texts to texts that never
  collides and whose results hold no colon, as hexadecimal digests do. */
module Merkle {

  const EMPTY_ROOT_PAYLOAD := "aether:por:v1:empty"
  const INTERNAL_PREFIX := "aether:por:v1:node"
  const LEAF_PREFIX := "aether:por:v1:leaf"

  predicate Plain(s: string) {
    ':' !in s
  }

  ghost predicate Ideal(h: string -> string) {
    && (forall x, y :: h(x) == h(y) ==> x == y)
    && (forall x :: Plain(h(x)))
  }

  /** Writes a text without colons: a digest as ideal as is asked for, if not a short one. */
  function Escaped(s: string): string {
    if s == "" then ""
    else (if s[0] == ':' then "%c" else if s[0] == '%' then "%%" else [s[0]]) + Escaped(s[1..])
  }

  lemma {:induction false} EscapedIsPlain(s: string)
    ensures Plain(Escaped(s))
  {
    if s != "" { EscapedIsPlain(s[1..]); }
  }

  lemma {:induction false} EscapedOnce(x: string, y: string)
    requires Escaped(x) == Escaped(y)
    ensures x == y
  {
    if x != "" && y != "" {
      var a, b := Escaped(x), Escaped(y);
      assert a[0] == b[0] && (x[0] in ":%" ==> a[1] == (if x[0] == ':' then 'c' else '%'));
      assert x[0] == y[0];
      var n := if x[0] in ":%" then 2 else 1;
      assert Escaped(x[1..]) == a[n..] && Escaped(y[1..]) == b[n..];
      EscapedOnce(x[1..], y[1..]);
      assert x == [x[0]] + x[1..] && y == [y[0]] + y[1..];
    }
  }

  lemma IdealExists()
    ensures Ideal(Escaped)
  {
    forall x, y | Escaped(x) == Escaped(y) ensures x == y { EscapedOnce(x, y); }
    forall x ensures Plain(Escaped(x)) { EscapedIsPlain(x); }
  }

  // ---- The order of texts --------------------------------------------------------

  /** `a` is `b` or comes before it. */
  predicate Before(a: string, b: string) {
    a == "" || (b != "" && (a[0] < b[0] || (a[0] == b[0] && Before(a[1..], b[1..]))))
  }

  lemma {:induction false} BeforeTotal(a: string, b: string)
    ensures Before(a, b) || Before(b, a)
  {
    if a != "" && b != "" && a[0] == b[0] { BeforeTotal(a[1..], b[1..]); }
  }

  lemma {:induction false} BeforeAntisymmetric(a: string, b: string)
    requires Before(a, b) && Before(b, a)
    ensures a == b
  {
    if a != "" {
      BeforeAntisymmetric(a[1..], b[1..]);
      assert a == [a[0]] + a[1..] && b == [b[0]] + b[1..];
    }
  }

  lemma {:induction false} BeforeTransitive(a: string, b: string, c: string)
    requires Before(a, b) && Before(b, c)
    ensures Before(a, c)
  {
    if a != "" && a[0] == b[0] == c[0] { BeforeTransitive(a[1..], b[1..], c[1..]); }
  }

  // ---- Levels --------------------------------------------------------------------

  function NodePayload(first: string, second: string): string {
    INTERNAL_PREFIX + ":" + first + ":" + second
  }

  function HashPair(h: string -> string, left: string, right: string): string {
    if Before(left, right) then h(NodePayload(left, right)) else h(NodePayload(right, left))
  }

  /** Neighbours are paired; a last one without a neighbour is carried up as it is. */
  function NextLevel(h: string -> string, level: seq<string>): (up: seq<string>)
    ensures |up| == (|level| + 1) / 2
  {
    if |level| <= 1 then level else [HashPair(h, level[0], level[1])] + NextLevel(h, level[2..])
  }

  function Root(h: string -> string, level: seq<string>): string
    decreases |level|
  {
    if level == [] then h(EMPTY_ROOT_PAYLOAD)
    else if |level| == 1 then level[0]
    else Root(h, NextLevel(h, level))
  }

  /** `merkle_root`. */
  method MerkleRoot(h: string -> string, leaves: seq<string>) returns (root: string)
    ensures root == Root(h, leaves)
  {
    var level := leaves;
    if level == [] {
      return h(EMPTY_ROOT_PAYLOAD);
    }
    while |level| > 1
      invariant level != [] && Root(h, level) == Root(h, leaves)
      decreases |level|
    {
      level := NextLevel(h, level);
    }
    return level[0];
  }

  function SiblingIndex(index: nat): int {
    if index % 2 == 0 then index + 1 else index - 1
  }

  function SiblingAt(level: seq<string>, index: nat): seq<string> {
    if 0 <= SiblingIndex(index) < |level| then [level[SiblingIndex(index)]] else []
  }

  function Proof(h: string -> string, level: seq<string>, index: nat): seq<string>
    decreases |level|
  {
    if |level| <= 1 then [] else SiblingAt(level, index) + Proof(h, NextLevel(h, level), index / 2)
  }

  /** `proof_for_index`. */
  method ProofForIndex(h: string -> string, leaves: seq<string>, leafIndex: nat) returns (proof: seq<string>)
    ensures proof == Proof(h, leaves, leafIndex)
  {
    hide NextLevel, SiblingAt;
    var level, index := leaves, leafIndex;
    proof := [];
    while |level| > 1
      invariant proof + Proof(h, level, index) == Proof(h, leaves, leafIndex)
      decreases |level|
    {
      proof := WithSibling(proof, level, index, Proof(h, NextLevel(h, level), index / 2));
      level := NextLevel(h, level);
      index := index / 2;
    }
  }

  /** A place without a neighbour contributes no sibling. */
  method WithSibling(proof: seq<string>, level: seq<string>, index: nat, ghost rest: seq<string>)
    returns (more: seq<string>)
    ensures more + rest == proof + (SiblingAt(level, index) + rest)
  {
    var siblingIndex := if index % 2 == 0 then index + 1 else index - 1;
    more := proof;
    if 0 <= siblingIndex < |level| {
      more := proof + [level[siblingIndex]];
    }
  }

  function Climb(h: string -> string, digest: string, siblings: seq<string>): string
    decreases |siblings|
  {
    if siblings == [] then digest else Climb(h, HashPair(h, digest, siblings[0]), siblings[1..])
  }

  function Accepts(h: string -> string, payload: string, siblings: seq<string>, root: string): bool {
    Climb(h, h(payload), siblings) == root
  }

  method VerifyProof(h: string -> string, payload: string, siblings: seq<string>, root: string) returns (ok: bool)
    ensures ok == Accepts(h, payload, siblings, root)
  {
    var current := h(payload);
    for i := 0 to |siblings|
      invariant Climb(h, current, siblings[i..]) == Climb(h, h(payload), siblings)
    {
      assert siblings[i..][1..] == siblings[i + 1..];
      current := HashPair(h, current, siblings[i]);
    }
    return current == root;
  }

  // ---- The texts that are hashed -------------------------------------------------

  /** `a` and `b` agree up to `k`, where `a` ends or has the smaller character. */
  predicate SmallerAt(a: string, b: string, k: nat) {
    k <= |a| && k <= |b| && a[..k] == b[..k] && (k == |a| || (k < |b| && a[k] < b[k]))
  }

  lemma {:induction false} SmallerIsBefore(a: string, b: string, k: nat)
    requires SmallerAt(a, b, k)
    ensures Before(a, b) && (Before(b, a) ==> a == b)
  {
    if k > 0 {
      assert a[0] == a[..k][0] == b[..k][0] == b[0];
      assert a[1..][..k - 1] == a[..k][1..] && b[1..][..k - 1] == b[..k][1..];
      SmallerIsBefore(a[1..], b[1..], k - 1);
      assert a == [a[0]] + a[1..] && b == [b[0]] + b[1..];
    }
  }

  /** In the text that stands for a pair of digests the smaller one comes first, whichever way round
    they are paired; a tree without leaves has the digest of a text of its own as its root. */
  lemma SmallerComesFirst(h: string -> string, a: string, b: string, k: nat)
    requires SmallerAt(a, b, k)
    ensures Root(h, [a, b]) == h("aether:por:v1:node:" + a + ":" + b)
    ensures Root(h, [b, a]) == Root(h, [a, b])
    ensures Root(h, []) == h("aether:por:v1:empty")
  {
    SmallerIsBefore(a, b, k);
    assert INTERNAL_PREFIX + ":" == "aether:por:v1:node:";
    PairRoot(h, a, b);
    PairRoot(h, b, a);
  }

  lemma PairRoot(h: string -> string, a: string, b: string)
    ensures Root(h, [a, b]) == HashPair(h, a, b)
  {
    hide HashPair;
    assert [a, b][2..] == [];
    assert NextLevel(h, [a, b]) == [HashPair(h, a, b)];
  }

  // ---- Completeness --------------------------------------------------------------

  lemma HashPairSymmetric(h: string -> string, a: string, b: string)
    ensures HashPair(h, a, b) == HashPair(h, b, a)
  {
    BeforeTotal(a, b);
    if Before(a, b) && Before(b, a) { BeforeAntisymmetric(a, b); }
  }

  /** What stands at a place one level up. */
  lemma {:induction false} NextLevelAt(h: string -> string, level: seq<string>, i: nat)
    requires i < (|level| + 1) / 2
    ensures NextLevel(h, level)[i] ==
      if 2 * i + 1 < |level| then HashPair(h, level[2 * i], level[2 * i + 1]) else level[2 * i]
  {
    if |level| > 1 && i > 0 { NextLevelAt(h, level[2..], i - 1); }
  }

  lemma ClimbOne(h: string -> string, level: seq<string>, index: nat)
    requires index < |level| && |level| > 1
    ensures Climb(h, level[index], SiblingAt(level, index)) == NextLevel(h, level)[index / 2]
  {
    hide HashPair, NextLevel;
    var i, at := index / 2, SiblingAt(level, index);
    NextLevelAt(h, level, i);
    if index == 2 * i + 1 {
      HashPairSymmetric(h, level[2 * i + 1], level[2 * i]);
      ClimbSibling(h, level[index], level[2 * i]);
    } else if index + 1 < |level| {
      ClimbSibling(h, level[index], level[index + 1]);
    }
  }

  lemma ClimbSibling(h: string -> string, digest: string, sibling: string)
    ensures Climb(h, digest, [sibling]) == HashPair(h, digest, sibling)
  {
    assert [sibling][1..] == [];
  }

  lemma {:induction false} ClimbConcat(h: string -> string, digest: string, a: seq<string>, b: seq<string>)
    ensures Climb(h, digest, a + b) == Climb(h, Climb(h, digest, a), b)
    decreases |a|
  {
    if a == [] {
      assert a + b == b;
    } else {
      assert (a + b)[1..] == a[1..] + b;
      ClimbConcat(h, HashPair(h, digest, a[0]), a[1..], b);
    }
  }

  /** From every leaf its proof climbs to the root, odd levels included. */
  lemma {:induction false} ProofClimbs(h: string -> string, level: seq<string>, index: nat)
    requires index < |level|
    ensures Climb(h, level[index], Proof(h, level, index)) == Root(h, level)
    decreases |level|
  {
    if |level| > 1 {
      var up := NextLevel(h, level);
      ClimbOne(h, level, index);
      ProofClimbs(h, up, index / 2);
      ClimbConcat(h, level[index], SiblingAt(level, index), Proof(h, up, index / 2));
    }
  }

  function Pow2(k: nat): nat {
    if k == 0 then 1 else 2 * Pow2(k - 1)
  }

  /** A proof for one of at most two to the `k` leaves has at most `k` siblings. */
  lemma {:induction false} ProofIsShort(h: string -> string, level: seq<string>, index: nat, k: nat)
    requires |level| <= Pow2(k)
    ensures |Proof(h, level, index)| <= k
    decreases |level|
  {
    if |level| > 1 { ProofIsShort(h, NextLevel(h, level), index / 2, k - 1); }
  }

  // ---- Binding -------------------------------------------------------------------

  /** The digest stands on some level of the tree. */
  predicate InTree(h: string -> string, level: seq<string>, digest: string)
    decreases |level|
  {
    digest in level || (|level| > 1 && InTree(h, NextLevel(h, level), digest))
  }

  ghost predicate NotNode(text: string) {
    forall first, second :: text != NodePayload(first, second)
  }

  /** Every digest of the level is that of a text which is not a node's. */
  ghost predicate Ground(h: string -> string, texts: seq<string>, level: seq<string>) {
    && |level| == |texts| && (forall i :: 0 <= i < |texts| ==> level[i] == h(texts[i]))
    && (forall t :: t in texts ==> NotNode(t))
  }

  /** A digest one level up was there before, or pairs two that were. */
  lemma {:induction false} NextLevelFrom(h: string -> string, level: seq<string>, digest: string)
    returns (x: string, y: string)
    requires digest in NextLevel(h, level)
    ensures digest in level || (x in level && y in level && digest == HashPair(h, x, y))
  {
    x, y := "", "";
    if |level| > 1 {
      var rest := NextLevel(h, level[2..]);
      assert NextLevel(h, level) == [HashPair(h, level[0], level[1])] + rest;
      if digest in rest {
        x, y := NextLevelFrom(h, level[2..], digest);
      } else {
        x, y := level[0], level[1];
      }
    }
  }

  /** A digest of the tree is on its lowest level, or pairs two digests of the tree. */
  lemma {:induction false} InTreeFrom(h: string -> string, level: seq<string>, digest: string) returns (x: string, y: string)
    requires InTree(h, level, digest)
    ensures digest in level || (InTree(h, level, x) && InTree(h, level, y) && digest == HashPair(h, x, y))
    decreases |level|
  {
    x, y := "", "";
    if digest !in level {
      var up := NextLevel(h, level);
      x, y := InTreeFrom(h, up, digest);
      if digest in up { x, y := NextLevelFrom(h, level, digest); }
    }
  }

  /** All digests of a tree over plain digests are plain. */
  lemma TreeIsPlain(h: string -> string, level: seq<string>, digest: string)
    requires Ideal(h) && InTree(h, level, digest) && forall d :: d in level ==> Plain(d)
    ensures Plain(digest)
  {
    var x, y := InTreeFrom(h, level, digest);
  }

  function FirstColon(s: string): nat {
    if s == "" || s[0] == ':' then 0 else 1 + FirstColon(s[1..])
  }

  lemma {:induction false} FirstColonAt(a: string, b: string)
    requires Plain(a)
    ensures FirstColon(a + ":" + b) == |a|
  {
    if a != "" {
      assert a[0] in a && (a + ":" + b)[1..] == a[1..] + ":" + b;
      FirstColonAt(a[1..], b);
    }
  }

  function LastColon(s: string): nat {
    if s == "" || s[|s| - 1] == ':' then 0 else 1 + LastColon(s[..|s| - 1])
  }

  lemma {:induction false} LastColonAt(a: string, b: string)
    requires Plain(b)
    ensures LastColon(a + ":" + b) == |b|
  {
    if b != "" {
      assert b[|b| - 1] in b && (a + ":" + b)[..|a| + |b|] == a + ":" + b[..|b| - 1];
      LastColonAt(a, b[..|b| - 1]);
    }
  }

  lemma SplitAt(a: string, b: string, c: string, d: string)
    requires |a| == |c| && a + ":" + b == c + ":" + d
    ensures a == c && b == d
  {
    var s, t := a + ":" + b, c + ":" + d;
    assert s[..|a|] == a && t[..|c|] == c && s[|a| + 1..] == b && t[|c| + 1..] == d;
  }

  /** A text splits at its first colon in one way. */
  lemma SplitFirst(a: string, b: string, c: string, d: string)
    requires Plain(a) && Plain(c) && a + ":" + b == c + ":" + d
    ensures a == c && b == d
  {
    FirstColonAt(a, b);
    FirstColonAt(c, d);
    SplitAt(a, b, c, d);
  }

  /** And at its last colon. */
  lemma SplitLast(a: string, b: string, c: string, d: string)
    requires Plain(b) && Plain(d) && a + ":" + b == c + ":" + d
    ensures a == c && b == d
  {
    LastColonAt(a, b);
    LastColonAt(c, d);
    assert |a + ":" + b| == |c + ":" + d|;
    SplitAt(a, b, c, d);
  }

  lemma StripPrefix(p: string, a: string, b: string)
    requires p + a == p + b
    ensures a == b
  {
    assert (p + a)[|p|..] == a && (p + b)[|p|..] == b;
  }

  function Colons(s: string): nat {
    if s == "" then 0 else (if s[0] == ':' then 1 else 0) + Colons(s[1..])
  }

  lemma {:induction false} ColonsConcat(a: string, b: string)
    ensures Colons(a + b) == Colons(a) + Colons(b)
  {
    if a == "" {
      assert a + b == b;
    } else {
      assert (a + b)[1..] == a[1..] + b;
      ColonsConcat(a[1..], b);
    }
  }

  lemma {:induction false} PlainColons(s: string)
    ensures Plain(s) <==> Colons(s) == 0
  {
    if s != "" {
      assert s == [s[0]] + s[1..];
      PlainColons(s[1..]);
    }
  }

  /** Two node texts agree only if their parts do; one side's parts are digests, and the
    other's may be any texts at all. */
  lemma NodePayloadInjective(a: string, b: string, x: string, y: string)
    requires NodePayload(a, b) == NodePayload(x, y) && Plain(x) && Plain(y)
    ensures a == x && b == y
  {
    var p := INTERNAL_PREFIX + ":";
    assert NodePayload(a, b) == p + (a + ":" + b) && NodePayload(x, y) == p + (x + ":" + y);
    StripPrefix(p, a + ":" + b, x + ":" + y);
    ColonsConcat(a + ":", b);
    ColonsConcat(a, ":");
    ColonsConcat(x + ":", y);
    ColonsConcat(x, ":");
    PlainColons(a);
    PlainColons(b);
    PlainColons(x);
    PlainColons(y);
    SplitFirst(a, b, x, y);
  }

  lemma HashPairParts(h: string -> string, a: string, b: string, x: string, y: string)
    requires Ideal(h) && HashPair(h, a, b) == HashPair(h, x, y) && Plain(x) && Plain(y)
    ensures a == x || a == y
  {
    var p := if Before(a, b) then NodePayload(a, b) else NodePayload(b, a);
    var q := if Before(x, y) then NodePayload(x, y) else NodePayload(y, x);
    assert h(p) == h(q);
    if Before(a, b) {
      if Before(x, y) { NodePayloadInjective(a, b, x, y); } else { NodePayloadInjective(a, b, y, x); }
    } else {
      if Before(x, y) { NodePayloadInjective(b, a, x, y); } else { NodePayloadInjective(b, a, y, x); }
    }
  }

  lemma HashPairIsNode(h: string -> string, a: string, b: string) returns (first: string, second: string)
    ensures HashPair(h, a, b) == h(NodePayload(first, second))
  {
    first, second := if Before(a, b) then a else b, if Before(a, b) then b else a;
  }

  lemma GroundPlain(h: string -> string, texts: seq<string>, level: seq<string>)
    requires Ideal(h) && Ground(h, texts, level)
    ensures forall d :: d in level ==> Plain(d)
  {
  }

  lemma GroundNoNode(h: string -> string, texts: seq<string>, level: seq<string>, first: string, second: string)
    requires Ideal(h) && Ground(h, texts, level)
    ensures h(NodePayload(first, second)) !in level
  {
    forall i | 0 <= i < |level| ensures level[i] != h(NodePayload(first, second)) {
      assert texts[i] in texts && texts[i] != NodePayload(first, second);
    }
  }

  /** Below a pair that stands in the tree, its members stand in the tree. */
  lemma PairStandsOn(h: string -> string, texts: seq<string>, level: seq<string>, a: string, b: string)
    requires Ideal(h) && Ground(h, texts, level) && InTree(h, level, HashPair(h, a, b))
    ensures InTree(h, level, a)
  {
    var d := HashPair(h, a, b);
    var first, second := HashPairIsNode(h, a, b);
    GroundNoNode(h, texts, level, first, second);
    var x, y := InTreeFrom(h, level, d);
    GroundPlain(h, texts, level);
    TreeIsPlain(h, level, x);
    TreeIsPlain(h, level, y);
    HashPairParts(h, a, b, x, y);
  }

  /** Whatever climbs to a digest of the tree started from a digest of the tree. */
  lemma {:induction false} ClimbStartsIn(h: string -> string, texts: seq<string>, level: seq<string>,
                                         digest: string, siblings: seq<string>)
    requires Ideal(h) && Ground(h, texts, level) && InTree(h, level, Climb(h, digest, siblings))
    ensures InTree(h, level, digest)
    decreases |siblings|
  {
    if siblings != [] {
      ClimbStartsIn(h, texts, level, HashPair(h, digest, siblings[0]), siblings[1..]);
      PairStandsOn(h, texts, level, digest, siblings[0]);
    }
  }

  lemma {:induction false} RootInTree(h: string -> string, level: seq<string>)
    requires level != []
    ensures InTree(h, level, Root(h, level))
    decreases |level|
  {
    if |level| > 1 { RootInTree(h, NextLevel(h, level)); }
  }

  lemma EmptyIsNotNode(first: string, second: string)
    ensures NodePayload(first, second) != EMPTY_ROOT_PAYLOAD
  {
    assert NodePayload(first, second)[14] == 'n' && EMPTY_ROOT_PAYLOAD[14] == 'e';
  }

  /** A text that is accepted, with whatever siblings, and is not a node's text, is one of the
    tree's leaf texts, or the empty tree's own. */
  lemma AcceptedIsLeaf(h: string -> string, texts: seq<string>, level: seq<string>, payload: string, siblings: seq<string>)
    requires Ideal(h) && Ground(h, texts, level) && NotNode(payload)
    requires Accepts(h, payload, siblings, Root(h, level))
    ensures payload in texts || (texts == [] && payload == EMPTY_ROOT_PAYLOAD)
  {
    if level == [] {
      if siblings != [] { ClimbIsPair(h, h(payload), siblings); }
    } else {
      RootInTree(h, level);
      ClimbStartsIn(h, texts, level, h(payload), siblings);
      LowestInTree(h, level, payload);
      var i :| 0 <= i < |level| && level[i] == h(payload);
      assert texts[i] in texts;
    }
  }

  lemma LowestInTree(h: string -> string, level: seq<string>, payload: string)
    requires Ideal(h) && NotNode(payload) && InTree(h, level, h(payload))
    ensures h(payload) in level
  {
    var x, y := InTreeFrom(h, level, h(payload));
    var first, second := HashPairIsNode(h, x, y);
    assert payload != NodePayload(first, second);
  }

  /** A climb over siblings never ends at the empty root. */
  lemma {:induction false} ClimbIsPair(h: string -> string, digest: string, siblings: seq<string>)
    requires Ideal(h) && siblings != []
    ensures Climb(h, digest, siblings) != h(EMPTY_ROOT_PAYLOAD)
    decreases |siblings|
  {
    var up := HashPair(h, digest, siblings[0]);
    if |siblings| > 1 {
      ClimbIsPair(h, up, siblings[1..]);
    } else {
      assert siblings[1..] == [];
      var first, second := HashPairIsNode(h, digest, siblings[0]);
      EmptyIsNotNode(first, second);
    }
  }
}
