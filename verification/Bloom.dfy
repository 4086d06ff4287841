/** Log blooms and log filters. */
module Bloom {
  import opened Prelude
  import opened Bytes

  type Data = seq<byte>

  /** The set bits of a 2048-bit bloom. */
  type Filter = set<nat>

  datatype Log = Log(address: Data, topics: seq<Data>, data: Data)

  /** The bits of one log. `bits` gives the three bits a hashed input sets. */
  function LogBits(log: Log, bits: Data -> Filter): Filter {
    bits(log.address) + TopicBits(log.topics, bits)
  }

  function TopicBits(topics: seq<Data>, bits: Data -> Filter): Filter {
    if topics == [] then {} else TopicBits(topics[..|topics| - 1], bits) + bits(topics[|topics| - 1])
  }

  function LogsBloom(logs: seq<Log>, bits: Data -> Filter): Filter {
    if logs == [] then {} else LogsBloom(logs[..|logs| - 1], bits) + LogBits(logs[|logs| - 1], bits)
  }

  /** `logs_to_bloom` */
  method LogsToBloom(logs: seq<Log>, bits: Data -> Filter) returns (bloom: Filter)
    ensures bloom == LogsBloom(logs, bits)
  {
    bloom := {};
    for i := 0 to |logs|
      invariant bloom == LogsBloom(logs[..i], bits)
    {
      var topics := logs[i].topics;
      ghost var before := bloom;
      bloom := bloom + bits(logs[i].address);
      for j := 0 to |topics|
        invariant bloom == before + bits(logs[i].address) + TopicBits(topics[..j], bits)
      {
        assert topics[..j + 1][..j] == topics[..j];
        bloom := bloom + bits(topics[j]);
      }
      assert topics[..|topics|] == topics;
      assert logs[..i + 1][..i] == logs[..i];
    }
    assert logs[..|logs|] == logs;
  }

  /** The header bloom: the union of the receipts' blooms. */
  function UnionOfBlooms(blooms: seq<Filter>): Filter {
    if blooms == [] then {} else UnionOfBlooms(blooms[..|blooms| - 1]) + blooms[|blooms| - 1]
  }

  function Concat(logs: seq<seq<Log>>): seq<Log> {
    if logs == [] then [] else Concat(logs[..|logs| - 1]) + logs[|logs| - 1]
  }

  lemma {:induction false} LogsBloomConcat(a: seq<Log>, b: seq<Log>, bits: Data -> Filter)
    ensures LogsBloom(a + b, bits) == LogsBloom(a, bits) + LogsBloom(b, bits)
  {
    if b == [] {
      assert a + b == a;
    } else {
      assert (a + b)[..|a + b| - 1] == a + b[..|b| - 1];
      LogsBloomConcat(a, b[..|b| - 1], bits);
    }
  }

  /** The union of per-receipt blooms is the bloom of all the block's logs. */
  lemma {:induction false} UnionIsBloomOfAllLogs(logs: seq<seq<Log>>, blooms: seq<Filter>, bits: Data -> Filter)
    requires |logs| == |blooms|
    requires forall i :: 0 <= i < |logs| ==> blooms[i] == LogsBloom(logs[i], bits)
    ensures UnionOfBlooms(blooms) == LogsBloom(Concat(logs), bits)
  {
    if logs != [] {
      var n := |logs| - 1;
      UnionIsBloomOfAllLogs(logs[..n], blooms[..n], bits);
      LogsBloomConcat(Concat(logs[..n]), logs[n], bits);
    }
  }

  // ----- filters -----

  predicate MatchesAddress(address: Data, filter: set<Data>) {
    filter == {} || address in filter
  }

  predicate MatchesTopics(topics: seq<Data>, filter: seq<Option<seq<Data>>>) {
    && |filter| <= |topics|
    && forall i :: 0 <= i < |filter| ==> (filter[i].Some? ==> topics[i] in filter[i].value)
  }

  /** An address filter accepts everything when it is empty, and otherwise what one of its
      entries accepts. */
  lemma AddressesMatchByEntry(address: Data, entry: Data, filter: set<Data>)
    ensures MatchesAddress(address, {})
    ensures MatchesAddress(address, {entry}) <==> address == entry
    ensures filter != {} ==>
              (MatchesAddress(address, filter + {entry})
               <==> MatchesAddress(address, filter) || MatchesAddress(address, {entry}))
  {
  }

  /** A topic filter is read position by position: the empty one accepts every log, each
      further position asks for one more topic and, if it is set, for one of its entries, and
      topics beyond the filter do not matter. */
  lemma TopicsMatchByPosition(topics: seq<Data>, filter: seq<Option<seq<Data>>>, entries: seq<Data>, more: seq<Data>)
    ensures MatchesTopics(topics, [])
    ensures MatchesTopics(topics, filter + [None]) <==> MatchesTopics(topics, filter) && |topics| > |filter|
    ensures MatchesTopics(topics, filter + [Some(entries)])
       <==> MatchesTopics(topics, filter) && |topics| > |filter| && topics[|filter|] in entries
    ensures |filter| <= |topics| ==> (MatchesTopics(topics + more, filter) <==> MatchesTopics(topics, filter))
  {
    var unset, given := filter + [None], filter + [Some(entries)];
    assert forall i :: 0 <= i < |filter| ==> unset[i] == filter[i] == given[i];
    assert unset[|filter|] == None && given[|filter|] == Some(entries);
  }

  lemma {:induction false} BloomCoversLog(logs: seq<Log>, i: nat, bits: Data -> Filter)
    requires i < |logs|
    ensures LogBits(logs[i], bits) <= LogsBloom(logs, bits)
  {
    if i < |logs| - 1 {
      BloomCoversLog(logs[..|logs| - 1], i, bits);
    }
  }

  lemma {:induction false} BitsCoverTopic(topics: seq<Data>, i: nat, bits: Data -> Filter)
    requires i < |topics|
    ensures bits(topics[i]) <= TopicBits(topics, bits)
  {
    if i < |topics| - 1 {
      BitsCoverTopic(topics[..|topics| - 1], i, bits);
    }
  }

  /** No false negatives: a block whose bloom lacks the bits of every entry of an
      address filter or of a topic position holds no matching log. */
  lemma BloomHasNoFalseNegatives(logs: seq<Log>, k: nat, addresses: set<Data>, topics: seq<Option<seq<Data>>>,
                                 bits: Data -> Filter)
    requires k < |logs|
    requires MatchesAddress(logs[k].address, addresses) && MatchesTopics(logs[k].topics, topics)
    ensures addresses != {} ==> exists a :: a in addresses && bits(a) <= LogsBloom(logs, bits)
    ensures forall i :: 0 <= i < |topics| && topics[i].Some? ==>
              exists t :: t in topics[i].value && bits(t) <= LogsBloom(logs, bits)
  {
    BloomCoversLog(logs, k, bits);
    if addresses != {} {
      assert logs[k].address in addresses && bits(logs[k].address) <= LogBits(logs[k], bits);
    }
    forall i | 0 <= i < |topics| && topics[i].Some?
      ensures exists t :: t in topics[i].value && bits(t) <= LogsBloom(logs, bits)
    {
      BitsCoverTopic(logs[k].topics, i, bits);
      assert logs[k].topics[i] in topics[i].value;
    }
  }
}
