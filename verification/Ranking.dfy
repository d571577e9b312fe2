/**
 * The order in which links and connections are preferred (rankLinkProperties in both network
 * manager plugins), the ranked connection lists kept by it, and the choice of a preferred link.
 */
module Ranking {
  import opened Wrappers

  datatype ConnectionType = CtUndef | CtDirect | CtIndirect | CtMixed | CtLocal

  datatype PersonaType = PUndef | PClient | PRegistry | PServer

  datatype LinkKind = LtUndef | LtSend | LtRecv | LtBidi

  datatype LinkProps = LinkProps(connectionType: ConnectionType, bandwidth: int, linkType: LinkKind)

  /** A connection and the properties of its link. */
  datatype Conn = Conn(id: string, props: LinkProps)

  datatype Node = ServerNode | ClientNode

  /** The comparator of the server: indirect links come first only towards clients. */
  predicate ServerPrefers(a: LinkProps, b: LinkProps, recipient: PersonaType) {
    if a.connectionType == CtUndef then false
    else if b.connectionType == CtUndef then true
    else if recipient == PClient && a.connectionType == CtIndirect && b.connectionType != CtIndirect then true
    else if recipient == PClient && b.connectionType == CtIndirect && a.connectionType != CtIndirect then false
    else a.bandwidth > b.bandwidth
  }

  /** The comparator of the client, which ignores the recipient. */
  predicate ClientPrefers(a: LinkProps, b: LinkProps) {
    if a.connectionType == CtUndef then false
    else if b.connectionType == CtUndef then true
    else if a.connectionType == CtIndirect && b.connectionType != CtIndirect then true
    else if b.connectionType == CtIndirect && a.connectionType != CtIndirect then false
    else a.bandwidth > b.bandwidth
  }

  predicate Prefers(node: Node, recipient: PersonaType, a: LinkProps, b: LinkProps) {
    if node == ServerNode then ServerPrefers(a, b, recipient) else ClientPrefers(a, b)
  }

  // ----- strict weak order -----

  /** What a comparator really looks at: the class of the link, then its bandwidth. */
  datatype Score = Score(tier: nat, bandwidth: int)

  function ScoreOf(node: Node, recipient: PersonaType, p: LinkProps): Score {
    if p.connectionType == CtUndef then Score(0, 0)
    else if (node == ClientNode || recipient == PClient) && p.connectionType == CtIndirect then Score(2, p.bandwidth)
    else Score(1, p.bandwidth)
  }

  predicate Above(a: Score, b: Score) {
    a.tier > b.tier || (a.tier == b.tier && a.bandwidth > b.bandwidth)
  }

  /** Both comparators compare scores. */
  lemma PrefersByScore(node: Node, recipient: PersonaType, a: LinkProps, b: LinkProps)
    ensures Prefers(node, recipient, a, b) <==> Above(ScoreOf(node, recipient, a), ScoreOf(node, recipient, b))
  {
  }

  predicate Tied(node: Node, recipient: PersonaType, a: LinkProps, b: LinkProps) {
    !Prefers(node, recipient, a, b) && !Prefers(node, recipient, b, a)
  }

  /** What std::sort demands of a comparator, for any three links. */
  lemma StrictWeakOrder(node: Node, recipient: PersonaType, a: LinkProps, b: LinkProps, c: LinkProps)
    ensures !Prefers(node, recipient, a, a)
    ensures !(Prefers(node, recipient, a, b) && Prefers(node, recipient, b, a))
    ensures Prefers(node, recipient, a, b) && Prefers(node, recipient, b, c) ==> Prefers(node, recipient, a, c)
    ensures Tied(node, recipient, a, b) && Tied(node, recipient, b, c) ==> Tied(node, recipient, a, c)
    ensures Tied(node, recipient, a, b) <==> ScoreOf(node, recipient, a) == ScoreOf(node, recipient, b)
  {
    PrefersByScore(node, recipient, a, b);
    PrefersByScore(node, recipient, b, a);
  }

  // ----- ranked lists -----

  /** No connection stands behind a less preferred one. */
  predicate Ranked(node: Node, recipient: PersonaType, s: seq<Conn>) {
    forall i, j :: 0 <= i < j < |s| ==> !Prefers(node, recipient, s[j].props, s[i].props)
  }

  /** What std::sort leaves open: `s` holds the connections of `t` in some ranked order. */
  ghost predicate RankedArrangement(node: Node, recipient: PersonaType, s: seq<Conn>, t: seq<Conn>) {
    multiset(s) == multiset(t) && Ranked(node, recipient, s)
  }

  /** Puts a connection into a ranked list, behind everything at least as good. */
  method Place(node: Node, recipient: PersonaType, ranked: seq<Conn>, x: Conn) returns (r: seq<Conn>)
    requires Ranked(node, recipient, ranked)
    ensures RankedArrangement(node, recipient, r, ranked + [x])
  {
    var k := 0;
    while k < |ranked| && !Prefers(node, recipient, x.props, ranked[k].props)
      invariant 0 <= k <= |ranked|
      invariant forall i :: 0 <= i < k ==> !Prefers(node, recipient, x.props, ranked[i].props)
    {
      k := k + 1;
    }
    r := ranked[..k] + [x] + ranked[k..];
    ghost var a, b := ranked[..k], ranked[k..];
    RankedParts(node, recipient, ranked, k);
    forall i | 0 <= i < |b| ensures !Prefers(node, recipient, b[i].props, x.props) {
      StrictWeakOrder(node, recipient, b[i].props, x.props, b[0].props);
    }
    forall i, j | 0 <= i < |a| && 0 <= j < |b| ensures !Prefers(node, recipient, b[j].props, a[i].props) {
      assert a[i] == ranked[i] && b[j] == ranked[k + j];
    }
    PlacedRanked(node, recipient, a, x, b);
  }

  lemma RankedConcat(node: Node, recipient: PersonaType, a: seq<Conn>, b: seq<Conn>)
    requires Ranked(node, recipient, a) && Ranked(node, recipient, b)
    requires forall i, j :: 0 <= i < |a| && 0 <= j < |b| ==> !Prefers(node, recipient, b[j].props, a[i].props)
    ensures Ranked(node, recipient, a + b)
  {
  }

  lemma MoveBack<T>(a: seq<T>, x: T, b: seq<T>)
    ensures multiset(a + [x] + b) == multiset(a + b + [x])
  {
  }

  lemma RankedParts(node: Node, recipient: PersonaType, s: seq<Conn>, k: nat)
    requires Ranked(node, recipient, s) && k <= |s|
    ensures s == s[..k] + s[k..] && Ranked(node, recipient, s[..k]) && Ranked(node, recipient, s[k..])
  {
  }

  lemma PlacedRanked(node: Node, recipient: PersonaType, a: seq<Conn>, x: Conn, b: seq<Conn>)
    requires Ranked(node, recipient, a) && Ranked(node, recipient, b)
    requires forall i :: 0 <= i < |a| ==> !Prefers(node, recipient, x.props, a[i].props)
    requires forall i, j :: 0 <= i < |a| && 0 <= j < |b| ==> !Prefers(node, recipient, b[j].props, a[i].props)
    requires forall i :: 0 <= i < |b| ==> !Prefers(node, recipient, b[i].props, x.props)
    ensures RankedArrangement(node, recipient, a + [x] + b, a + b + [x])
  {
    MoveBack(a, x, b);
    RankedConcat(node, recipient, a, [x]);
    RankedConcat(node, recipient, a + [x], b);
  }

  /** std::sort with the comparator, as one of the arrangements it may leave. */
  method Sort(node: Node, recipient: PersonaType, s: seq<Conn>) returns (r: seq<Conn>)
    ensures RankedArrangement(node, recipient, r, s)
  {
    r := [];
    var i := 0;
    while i < |s|
      invariant 0 <= i <= |s|
      invariant RankedArrangement(node, recipient, r, s[..i])
    {
      r := Place(node, recipient, r, s[i]);
      assert s[..i + 1] == s[..i] + [s[i]];
      i := i + 1;
    }
    assert s[..|s|] == s;
  }

  /** insertConnection: append and sort. */
  method InsertConnection(node: Node, recipient: PersonaType, ranked: seq<Conn>, conn: string, props: LinkProps)
    returns (r: seq<Conn>)
    ensures RankedArrangement(node, recipient, r, ranked + [Conn(conn, props)])
  {
    r := Sort(node, recipient, ranked + [Conn(conn, props)]);
  }

  // ----- how much freedom a sort has -----

  function Scores(node: Node, recipient: PersonaType, s: seq<Conn>): (r: seq<Score>)
    ensures |r| == |s|
  {
    seq(|s|, i requires 0 <= i < |s| => ScoreOf(node, recipient, s[i].props))
  }

  predicate Descending(s: seq<Score>) {
    forall i, j :: 0 <= i < j < |s| ==> !Above(s[j], s[i])
  }

  lemma {:induction false} ScoresOfSame(node: Node, recipient: PersonaType, s: seq<Conn>, t: seq<Conn>)
    requires multiset(s) == multiset(t)
    ensures multiset(Scores(node, recipient, s)) == multiset(Scores(node, recipient, t))
    decreases |s|
  {
    if s == [] {
      assert |multiset(t)| == 0;
      assert Scores(node, recipient, s) == [] == Scores(node, recipient, t);
    } else {
      assert s[0] in multiset(t);
      var k :| 0 <= k < |t| && t[k] == s[0];
      TakeOut(s, 0);
      TakeOut(t, k);
      ScoresOfSame(node, recipient, RemoveAt(s, 0), RemoveAt(t, k));
      ScoresWithout(node, recipient, s, 0);
      ScoresWithout(node, recipient, t, k);
    }
  }

  lemma ScoresWithout(node: Node, recipient: PersonaType, s: seq<Conn>, k: nat)
    requires k < |s|
    ensures multiset(Scores(node, recipient, s))
         == multiset(Scores(node, recipient, RemoveAt(s, k))) + multiset{ScoreOf(node, recipient, s[k].props)}
  {
    TakeOut(Scores(node, recipient, s), k);
    assert Scores(node, recipient, RemoveAt(s, k)) == RemoveAt(Scores(node, recipient, s), k);
  }

  lemma SameBest(a: seq<Score>, b: seq<Score>)
    requires Descending(a) && Descending(b) && multiset(a) == multiset(b) && a != []
    ensures b != [] && a[0] == b[0]
  {
    assert a[0] in multiset(b);
    assert b[0] in multiset(a);
    var i :| 0 <= i < |b| && b[i] == a[0];
    var j :| 0 <= j < |a| && a[j] == b[0];
  }

  lemma {:induction false} DescendingUnique(a: seq<Score>, b: seq<Score>)
    requires Descending(a) && Descending(b) && multiset(a) == multiset(b)
    ensures a == b
    decreases |a|
  {
    if a == [] {
      assert |multiset(b)| == 0;
    } else {
      SameBest(a, b);
      TakeOut(a, 0);
      TakeOut(b, 0);
      assert RemoveAt(a, 0) == a[1..] && RemoveAt(b, 0) == b[1..];
      DescendingUnique(a[1..], b[1..]);
    }
  }

  /**
   * Whatever sorting algorithm runs, every position of the ranked list holds a connection of the
   * same score; only connections tied with each other can trade places.
   */
  lemma RankingIsUnique(node: Node, recipient: PersonaType, s: seq<Conn>, t: seq<Conn>, k: nat)
    requires RankedArrangement(node, recipient, s, t) && Ranked(node, recipient, t) && k < |t|
    ensures k < |s| && Tied(node, recipient, s[k].props, t[k].props)
  {
    ScoresOfSame(node, recipient, s, t);
    var a, b := Scores(node, recipient, s), Scores(node, recipient, t);
    forall i, j | 0 <= i < j < |s| ensures !Above(a[j], a[i]) {
      PrefersByScore(node, recipient, s[j].props, s[i].props);
    }
    forall i, j | 0 <= i < j < |t| ensures !Above(b[j], b[i]) {
      PrefersByScore(node, recipient, t[j].props, t[i].props);
    }
    DescendingUnique(a, b);
    assert a[k] == b[k];
    StrictWeakOrder(node, recipient, s[k].props, t[k].props, t[k].props);
  }

  // ----- the preferred link -----

  /** Default-constructed properties. */
  const NO_LINK := LinkProps(CtUndef, -1, LtUndef)

  /** Link `k` beats every link before it and is beaten by none. */
  predicate FirstBest(node: Node, recipient: PersonaType, links: seq<string>, props: string -> LinkProps, k: nat) {
    && k < |links|
    && props(links[k]).connectionType != CtUndef
    && (forall j :: 0 <= j < k ==> Prefers(node, recipient, props(links[k]), props(links[j])))
    && (forall j :: 0 <= j < |links| ==> !Prefers(node, recipient, props(links[j]), props(links[k])))
  }

  predicate AllUndef(links: seq<string>, props: string -> LinkProps) {
    forall k :: 0 <= k < |links| ==> props(links[k]).connectionType == CtUndef
  }

  ghost predicate Preferred(node: Node, recipient: PersonaType, links: seq<string>, props: string -> LinkProps, best: string) {
    if AllUndef(links, props) then best == ""
    else exists k: nat :: FirstBest(node, recipient, links, props, k) && links[k] == best
  }

  /** The link preferred is the first one that has a known type and is beaten by none. */
  lemma PreferredIsFirst(node: Node, recipient: PersonaType, links: seq<string>, props: string -> LinkProps, best: string, j: nat)
    requires Preferred(node, recipient, links, props, best)
    requires j < |links| && props(links[j]).connectionType != CtUndef
    requires forall i :: 0 <= i < |links| ==> !Prefers(node, recipient, props(links[i]), props(links[j]))
    requires forall i :: 0 <= i < j && props(links[i]).connectionType != CtUndef ==>
      exists h :: 0 <= h < |links| && Prefers(node, recipient, props(links[h]), props(links[i]))
    ensures best == links[j]
  {
    var k: nat :| FirstBest(node, recipient, links, props, k) && links[k] == best;
    assert k == j;
  }

  /**
   * getPreferredLinkIdForSendingToPersona returns the first of the most preferred links, or the
   * empty ID when no link has a known connection type.
   */
  method PreferredLink(node: Node, recipient: PersonaType, links: seq<string>, props: string -> LinkProps)
    returns (best: string)
    ensures Preferred(node, recipient, links, props, best)
  {
    var bestProps := NO_LINK;
    best := "";
    ghost var at: nat := 0;
    var i := 0;
    while i < |links|
      invariant 0 <= i <= |links|
      invariant bestProps.connectionType == CtUndef ==> AllUndef(links[..i], props)
      invariant bestProps.connectionType != CtUndef ==>
        at < i && links[at] == best && bestProps == props(best) && FirstBest(node, recipient, links[..i], props, at)
    {
      var p := props(links[i]);
      if Prefers(node, recipient, p, bestProps) {
        forall j | 0 <= j < i ensures Prefers(node, recipient, p, props(links[j])) {
          if bestProps.connectionType != CtUndef {
            assert !Prefers(node, recipient, props(links[..i][j]), bestProps);
            PrefersByScore(node, recipient, p, props(links[j]));
            PrefersByScore(node, recipient, p, bestProps);
            PrefersByScore(node, recipient, props(links[j]), bestProps);
          }
        }
        forall j | 0 <= j <= i ensures !Prefers(node, recipient, props(links[j]), p) {
          StrictWeakOrder(node, recipient, p, props(links[j]), p);
        }
        best, bestProps, at := links[i], p, i;
      }
      i := i + 1;
    }
    assert links[..i] == links;
    if bestProps.connectionType == CtUndef {
      best := "";
    } else {
      assert props(links[at]).connectionType != CtUndef;
    }
  }
}
