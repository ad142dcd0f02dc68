/** The append-only history of what a source said about one record. */
module SourceVersions {
  import opened Common

  /** The content stands for its injective hash; supersedes is the position of the predecessor. */
  datatype Version = Version(content: string, importedAt: int, supersedes: Option<nat>)

  function Contents(versions: seq<Version>): seq<string> {
    seq(|versions|, k requires 0 <= k < |versions| => versions[k].content)
  }

  predicate Known(versions: seq<Version>, content: string) {
    exists k | 0 <= k < |versions| :: versions[k].content == content
  }

  /** Position of the version imported last. */
  function LatestImport(versions: seq<Version>): (k: nat)
    requires versions != []
    ensures k < |versions|
    ensures forall j | 0 <= j < |versions| :: versions[j].importedAt <= versions[k].importedAt
  {
    var last := |versions| - 1;
    if last == 0 then 0
    else
      var k := LatestImport(versions[..last]);
      if versions[last].importedAt > versions[k].importedAt then last else k
  }

  /** Append a version, or leave the history alone when the content was seen before. */
  function Record(versions: seq<Version>, content: string, now: int): seq<Version> {
    if Known(versions, content) then versions
    else
      versions + [Version(content, now, if versions == [] then None else Some(LatestImport(versions)))]
  }

  datatype Import = Import(content: string, at: int)

  function RecordAll(imports: seq<Import>): seq<Version> {
    if imports == [] then []
    else
      var last := imports[|imports| - 1];
      Record(RecordAll(imports[..|imports| - 1]), last.content, last.at)
  }

  predicate Ticking(imports: seq<Import>) {
    forall j, k | 0 <= j < k < |imports| :: imports[j].at < imports[k].at
  }

  /** Contents in the order in which they first arrived, each once. */
  function FirstArrivals(imports: seq<Import>): seq<string> {
    if imports == [] then []
    else
      var before, content := FirstArrivals(imports[..|imports| - 1]), imports[|imports| - 1].content;
      if content in before then before else before + [content]
  }

  function ContentSet(imports: seq<Import>): set<string> {
    set k | 0 <= k < |imports| :: imports[k].content
  }

  /** One unbranched chain: every version supersedes the one before it. */
  predicate Chained(versions: seq<Version>) {
    forall k | 0 <= k < |versions| :: versions[k].supersedes == if k == 0 then None else Some(k - 1)
  }

  predicate Ordered(versions: seq<Version>) {
    forall j, k | 0 <= j < k < |versions| :: versions[j].importedAt < versions[k].importedAt
  }

  lemma RecordExtendsChain(versions: seq<Version>, content: string, now: int)
    requires Chained(versions) && Ordered(versions)
    requires forall k | 0 <= k < |versions| :: versions[k].importedAt < now
    ensures Chained(Record(versions, content, now)) && Ordered(Record(versions, content, now))
    ensures forall k | 0 <= k < |Record(versions, content, now)| :: Record(versions, content, now)[k].importedAt <= now
    ensures Contents(Record(versions, content, now))
         == if content in Contents(versions) then Contents(versions) else Contents(versions) + [content]
  {
    KnownMeansListed(versions, content);
    if versions != [] {
      var k := LatestImport(versions);
      assert k == |versions| - 1;
    }
    hide Known;
  }

  lemma KnownMeansListed(versions: seq<Version>, content: string)
    ensures Known(versions, content) <==> content in Contents(versions)
  {
    if Known(versions, content) {
      var k :| 0 <= k < |versions| && versions[k].content == content;
      assert Contents(versions)[k] == content;
    }
  }

  /**
   Whatever is imported, in whatever order, at increasing times: the versions of a record form one unbranched
   chain that lists each content once, by first arrival.
   */
  lemma {:induction false} HistoryIsOneChain(imports: seq<Import>)
    requires Ticking(imports)
    ensures Chained(RecordAll(imports)) && Ordered(RecordAll(imports))
    ensures Contents(RecordAll(imports)) == FirstArrivals(imports)
    ensures forall k | 0 <= k < |RecordAll(imports)| :: RecordAll(imports)[k].importedAt <= imports[|imports| - 1].at
  {
    if imports != [] {
      var earlier, last := imports[..|imports| - 1], imports[|imports| - 1];
      HistoryIsOneChain(earlier);
      RecordExtendsChain(RecordAll(earlier), last.content, last.at);
    }
  }

  lemma {:induction false} ArrivalsAreTheContents(imports: seq<Import>)
    ensures forall content :: content in FirstArrivals(imports) <==> content in ContentSet(imports)
    ensures |FirstArrivals(imports)| == |ContentSet(imports)|
  {
    if imports == [] {
      assert ContentSet(imports) == {};
    } else {
      var earlier, content := imports[..|imports| - 1], imports[|imports| - 1].content;
      ArrivalsAreTheContents(earlier);
      assert ContentSet(imports) == ContentSet(earlier) + {content};
    }
  }

  /** The chain is as long as the number of distinct contents ever imported. */
  lemma ChainCountsContents(imports: seq<Import>)
    requires Ticking(imports)
    ensures |RecordAll(imports)| == |ContentSet(imports)|
  {
    HistoryIsOneChain(imports);
    ArrivalsAreTheContents(imports);
    assert |Contents(RecordAll(imports))| == |RecordAll(imports)|;
  }

  /** Importing any content already seen, however long ago, changes nothing. */
  lemma ReplayAppendsNothing(imports: seq<Import>, again: Import)
    requires Ticking(imports) && again.content in ContentSet(imports)
    ensures RecordAll(imports + [again]) == RecordAll(imports)
  {
    HistoryIsOneChain(imports);
    ArrivalsAreTheContents(imports);
    assert (imports + [again])[..|imports|] == imports;
    assert again.content in Contents(RecordAll(imports));
    var k :| 0 <= k < |RecordAll(imports)| && Contents(RecordAll(imports))[k] == again.content;
    assert Known(RecordAll(imports), again.content);
  }

  /**
   The newest version is what the source said last exactly when that content is new, or already was the
   newest: a record that returns to an earlier content keeps the later one at its head.
   */
  lemma HeadFollowsSource(versions: seq<Version>, content: string, now: int)
    requires Chained(versions) && Ordered(versions)
    requires forall k | 0 <= k < |versions| :: versions[k].importedAt < now
    ensures var after := Record(versions, content, now);
            && after != []
            && (after[LatestImport(after)].content == content
                <==> !Known(versions, content) || versions[|versions| - 1].content == content)
  {
    RecordExtendsChain(versions, content, now);
    var after := Record(versions, content, now);
    assert LatestImport(after) == |after| - 1;
  }

  /** A record that says A, then B, then A again still shows B as its newest version. */
  lemma ReturningContentIsNotHead()
    ensures var versions := RecordAll([Import("A", 1), Import("B", 2), Import("A", 3)]);
            versions != [] && versions[LatestImport(versions)].content == "B"
  {
    var second, again := [Import("A", 1), Import("B", 2)], Import("A", 3);
    assert second[..1][..0] == [];
    assert FirstArrivals(second) == ["A", "B"];
    assert second[0].content in ContentSet(second);
    HistoryIsOneChain(second);
    ReplayAppendsNothing(second, again);
    assert second + [again] == [Import("A", 1), Import("B", 2), Import("A", 3)];
    hide RecordAll, FirstArrivals;
    var versions := RecordAll(second);
    assert |versions| == |Contents(versions)|;
    assert LatestImport(versions) == 1 && versions[1].content == Contents(versions)[1];
  }
}
