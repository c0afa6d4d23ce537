/** The call-graph aggregator (`m_call_tree`): a map from caller address to
    a map from callee address to the number of call-list lines naming that
    pair. The reading loop is a method of the class in module Converter;
    the functions below are its specification. */
module CallGraph {
  import opened Text

  type Graph = map<int, map<int, nat>>

  /** A call-list line `int(_, 16)` can read: comments and lines of fewer
      than two fields are skipped, so only the others need two hex fields. */
  predicate CallLineOk(line: string)
  {
    var entry := Split(line, ':');
    IsComment(line) || |entry| < 2 || (IsHex(entry[0]) && IsHex(entry[1]))
  }

  /** The (caller, callee) pair a call-list line names: nothing for a
      comment or a line without a colon. */
  function CallEdge(line: string): (e: Option<(int, int)>)
    requires CallLineOk(line)
    ensures e.None? <==> IsComment(line) || Count(line, ':') == 0
  {
    SplitSpec(line, ':');
    var entry := Split(line, ':');
    if IsComment(line) || |entry| < 2 then None
    else Some((ParseHex(entry[0]), ParseHex(entry[1])))
  }

  /** The pairs named by the lines of one call list, in file order. */
  function CallEdges(lines: seq<string>): seq<(int, int)>
    requires forall i :: 0 <= i < |lines| ==> CallLineOk(lines[i])
  {
    if lines == [] then []
    else
      var prefix := CallEdges(lines[..|lines| - 1]);
      match CallEdge(lines[|lines| - 1])
      case None => prefix
      case Some(e) => prefix + [e]
  }

  /** The count the graph holds for a pair; an absent entry counts 0. */
  function Calls(g: Graph, src: int, dst: int): nat
  {
    if src in g && dst in g[src] then g[src][dst] else 0
  }

  /** One accepted line: a pair whose caller is 0 is dropped; otherwise its
      entry is created at 0 if missing and incremented. */
  function AddCall(g: Graph, src: int, dst: int): (r: Graph)
    ensures forall s, d :: Calls(r, s, d) == Calls(g, s, d) + (if s == src && d == dst && src != 0 then 1 else 0)
  {
    if src == 0 then g
    else
      var inner := if src in g then g[src] else map[];
      var count := if dst in inner then inner[dst] else 0;
      g[src := inner[dst := count + 1]]
  }

  /** Every pair of the sequence, added in order. */
  function AddCalls(g: Graph, edges: seq<(int, int)>): Graph
  {
    if edges == [] then g
    else
      var (src, dst) := edges[|edges| - 1];
      AddCall(AddCalls(g, edges[..|edges| - 1]), src, dst)
  }

  /** What `read_calls_list` leaves in the graph. */
  function ReadCalls(g: Graph, lines: seq<string>): Graph
    requires forall i :: 0 <= i < |lines| ==> CallLineOk(lines[i])
  {
    AddCalls(g, CallEdges(lines))
  }

  /** The shape every call graph keeps: no caller 0, no caller without a
      callee, and no count below 1. */
  ghost predicate WellShaped(g: Graph)
  {
    && 0 !in g
    && (forall s :: s in g ==> |g[s]| > 0)
    && (forall s, d :: s in g && d in g[s] ==> g[s][d] >= 1)
  }

  /** Aggregation: each pair's count grows by exactly the number of times
      it occurs in the sequence, unless its caller is 0. */
  lemma {:induction false} AddCallsCounts(g: Graph, edges: seq<(int, int)>, src: int, dst: int)
    ensures Calls(AddCalls(g, edges), src, dst) ==
              Calls(g, src, dst) + (if src == 0 then 0 else multiset(edges)[(src, dst)])
  {
    if edges != [] {
      var init := edges[..|edges| - 1];
      var last := edges[|edges| - 1];
      AddCallsCounts(g, init, src, dst);
      assert AddCalls(g, edges) == AddCall(AddCalls(g, init), last.0, last.1);
      assert edges == init + [last];
      assert multiset(edges) == multiset(init) + multiset{last};
    }
  }

  /** Adding calls keeps the shape of the graph. */
  lemma {:induction false} AddCallsShape(g: Graph, edges: seq<(int, int)>)
    requires WellShaped(g)
    ensures WellShaped(AddCalls(g, edges))
  {
    if edges != [] {
      AddCallsShape(g, edges[..|edges| - 1]);
    }
  }

  /** A non-empty callee map has a callee. */
  lemma SomeCallee(callees: map<int, nat>) returns (d: int)
    requires |callees| > 0
    ensures d in callees
  {
    if forall k :: k !in callees {
      assert false;
    }
    d :| d in callees;
  }

  /** Two well-shaped graphs with the same count for every pair are the
      same graph. */
  lemma SameCountsSameGraph(g1: Graph, g2: Graph)
    requires WellShaped(g1) && WellShaped(g2)
    requires forall s, d :: Calls(g1, s, d) == Calls(g2, s, d)
    ensures g1 == g2
  {
    forall s | s in g1 ensures s in g2 && g1[s] == g2[s] {
      var d := SomeCallee(g1[s]);
      assert Calls(g1, s, d) == Calls(g2, s, d);
      forall d' | d' in g1[s] ensures d' in g2[s] && g1[s][d'] == g2[s][d'] {
        assert Calls(g1, s, d') == Calls(g2, s, d');
      }
      forall d' | d' in g2[s] ensures d' in g1[s] {
        assert Calls(g1, s, d') == Calls(g2, s, d');
      }
    }
    forall s | s in g2 ensures s in g1 {
      var d := SomeCallee(g2[s]);
      assert Calls(g1, s, d) == Calls(g2, s, d);
    }
  }

  /** The graph a well-shaped graph becomes depends only on which pairs
      were added how often, not on their order. */
  lemma OrderIrrelevant(g: Graph, a: seq<(int, int)>, b: seq<(int, int)>)
    requires WellShaped(g)
    requires multiset(a) == multiset(b)
    ensures AddCalls(g, a) == AddCalls(g, b)
  {
    AddCallsShape(g, a);
    AddCallsShape(g, b);
    forall s, d ensures Calls(AddCalls(g, a), s, d) == Calls(AddCalls(g, b), s, d) {
      AddCallsCounts(g, a, s, d);
      AddCallsCounts(g, b, s, d);
    }
    SameCountsSameGraph(AddCalls(g, a), AddCalls(g, b));
  }

  /** Adding two sequences one after the other adds their concatenation. */
  lemma {:induction false} AddCallsAppend(g: Graph, a: seq<(int, int)>, b: seq<(int, int)>)
    ensures AddCalls(AddCalls(g, a), b) == AddCalls(g, a + b)
  {
    if b == [] {
      assert a + b == a;
    } else {
      var init := b[..|b| - 1];
      AddCallsAppend(g, a, init);
      var last := b[|b| - 1];
      assert (a + b)[..|a + b| - 1] == a + init;
      assert (a + b)[|a + b| - 1] == last;
      assert AddCalls(g, a + b) == AddCall(AddCalls(g, a + init), last.0, last.1);
      assert AddCalls(AddCalls(g, a), b) == AddCall(AddCalls(AddCalls(g, a), init), last.0, last.1);
    }
  }

  // ---------------------------------------------------------------------------
  // several call lists, one per thread

  /** Every call list is readable. */
  ghost predicate FilesOk(files: seq<seq<string>>)
  {
    forall f, i :: 0 <= f < |files| && 0 <= i < |files[f]| ==> CallLineOk(files[f][i])
  }

  /** The pairs named by all the call lists, file after file. */
  function AllEdges(files: seq<seq<string>>): seq<(int, int)>
    requires FilesOk(files)
  {
    if files == [] then []
    else AllEdges(files[..|files| - 1]) + CallEdges(files[|files| - 1])
  }

  /** `read_calls_list` applied to each file in turn. */
  function ReadAllCalls(g: Graph, files: seq<seq<string>>): Graph
    requires FilesOk(files)
  {
    if files == [] then g
    else ReadCalls(ReadAllCalls(g, files[..|files| - 1]), files[|files| - 1])
  }

  /** Reading the files one after another adds all their pairs. */
  lemma {:induction false} ReadAllCallsAdds(g: Graph, files: seq<seq<string>>)
    requires FilesOk(files)
    ensures ReadAllCalls(g, files) == AddCalls(g, AllEdges(files))
  {
    if files != [] {
      var init := files[..|files| - 1];
      ReadAllCallsAdds(g, init);
      AddCallsAppend(g, AllEdges(init), CallEdges(files[|files| - 1]));
    }
  }

  /** Merging per-thread call lists: however the call records are spread
      over files and in whatever order the files are read, the graph is
      the same as long as the same pairs occur the same number of times. */
  lemma FileOrderIrrelevant(g: Graph, files1: seq<seq<string>>, files2: seq<seq<string>>)
    requires WellShaped(g) && FilesOk(files1) && FilesOk(files2)
    requires multiset(AllEdges(files1)) == multiset(AllEdges(files2))
    ensures ReadAllCalls(g, files1) == ReadAllCalls(g, files2)
  {
    ReadAllCallsAdds(g, files1);
    ReadAllCallsAdds(g, files2);
    OrderIrrelevant(g, AllEdges(files1), AllEdges(files2));
  }

  /** A field written as `0x<hex>` holds no colon. */
  lemma HexFieldNoColon(n: nat)
    ensures ':' !in "0x" + HexString(n)
  {
    var h := HexString(n);
    assert IsDigits(h, 16);
    assert forall i :: 2 <= i < |"0x" + h| ==> ("0x" + h)[i] == h[i - 2];
  }

  /** A call line written as `0x<caller>:0x<callee>` is read back as that
      pair. */
  lemma CallLineRoundTrip(src: nat, dst: nat)
    ensures var line := "0x" + HexString(src) + ":" + "0x" + HexString(dst);
      CallLineOk(line) && CallEdge(line) == Some((src, dst))
  {
    var a := "0x" + HexString(src);
    var b := "0x" + HexString(dst);
    var line := "0x" + HexString(src) + ":" + "0x" + HexString(dst);
    assert line == a + ":" + b;
    HexFieldNoColon(src);
    HexFieldNoColon(dst);
    assert Split(a + ":" + b, ':') == [a, b] by {
      assert a + ":" + b == a + [':'] + b;
      SplitAfterPiece(a, b, ':');
      SplitNoSeparator(b, ':');
    }
    assert (a + ":" + b)[0] == '0';
    HexRoundTrip(src);
    HexRoundTrip(dst);
  }
}
