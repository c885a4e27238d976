/**
 * `ScheduleProcessor.process_single_channel` (src/processor.py): adjust one
 * channel's programmes of the source document and save them to a file of
 * their own, recording the run in the processor's statistics.
 *
 * Reading the source document and writing the result are the two steps that
 * can fail; they are parameters here: `source` is the parsed document or
 * `None` when parsing fails, and `writeSucceeds` says whether the write goes
 * through.
 */
module Processor {
  import opened Wrappers
  import opened XmlHandler

  /** One entry of `stats['channels_processed']`. */
  datatype ChannelRecord = ChannelRecord(channelId: string, programmesCount: nat, offsetApplied: int)

  /** The processor's `stats` dictionary. */
  datatype ProcessorStats = ProcessorStats(processedChannels: nat, processedProgrammes: nat,
                                           channelsProcessed: seq<ChannelRecord>, errorsCount: nat)

  /** The processor's `config`: `default_offset` and the per-channel `channels` table. */
  datatype Config = Config(defaultOffset: int, channels: map<string, ChannelEntry>)

  /** How a call ends: the early return, the saved file, or the re-raised error. */
  datatype Outcome =
    | NoProgrammes
    | Saved(path: string, document: seq<Node>)
    | Raised

  const OUTPUT_PREFIX := "data/processed/epg_"
  const OUTPUT_SUFFIX := "_adjusted.xml"

  /** The file a single-channel run writes; the channel id can be read back from it. */
  function OutputPath(channelId: string): (r: string)
    ensures |r| == |OUTPUT_PREFIX| + |channelId| + |OUTPUT_SUFFIX|
    ensures r[..|OUTPUT_PREFIX|] == OUTPUT_PREFIX && r[|r| - |OUTPUT_SUFFIX|..] == OUTPUT_SUFFIX
    ensures r[|OUTPUT_PREFIX|..|r| - |OUTPUT_SUFFIX|] == channelId
  {
    OUTPUT_PREFIX + channelId + OUTPUT_SUFFIX
  }

  /** Different channels never write the same file. */
  lemma OutputPathInjective(a: string, b: string)
    requires OutputPath(a) == OutputPath(b)
    ensures a == b
  {
    assert a == OutputPath(a)[|OUTPUT_PREFIX|..|OutputPath(a)| - |OUTPUT_SUFFIX|];
  }

  /** The offset a single-channel run reports: the channel's own, else the default. */
  function ChannelOffset(config: Config, channelId: string): (r: int)
    ensures channelId in config.channels && config.channels[channelId].offset.Some? ==> r == config.channels[channelId].offset.value
    ensures channelId !in config.channels || config.channels[channelId].offset.None? ==> r == config.defaultOffset
  {
    EffectiveOffset(config.channels, config.defaultOffset, channelId)
  }

  /**
   * The offset the processor reports is the one the adjuster applies to that
   * channel's programmes.
   */
  lemma ReportedOffsetApplied(config: Config, nodes: seq<Node>, channelId: string, i: int)
    requires 0 <= i < |nodes| && IsProgramme(nodes[i]) && Get(nodes[i], "channel") == Some(channelId) && channelId != ""
    ensures AdjustedNodes(nodes, Some(channelId), config.channels, config.defaultOffset)[i]
            == AdjustNode(nodes[i], ChannelOffset(config, channelId))
  {
    AdjustedNodesAt(nodes, Some(channelId), config.channels, config.defaultOffset, i);
    assert Visited(nodes[i], Some(channelId));
  }

  class ScheduleProcessor {
    var config: Config
    var stats: ProcessorStats

    constructor (config: Config)
      ensures this.config == config && stats == ProcessorStats(0, 0, [], 0)
    {
      this.config := config;
      stats := ProcessorStats(0, 0, [], 0);
    }

    /**
     * `process_single_channel(channel_id)`. Without matching programmes it
     * returns early and changes nothing; otherwise it adjusts that channel,
     * saves the document to `OutputPath(channelId)` and overwrites the two
     * counters while appending a record. A failure to read or to write counts
     * one error and is raised again.
     */
    method ProcessSingleChannel(channelId: string, source: Option<seq<Node>>, writeSucceeds: bool)
      returns (outcome: Outcome)
      modifies this`stats
      ensures source.None? ==> outcome == Raised && stats == old(stats).(errorsCount := old(stats).errorsCount + 1)
      ensures source.Some? && MatchCount(source.value, channelId) == 0 ==> outcome == NoProgrammes && stats == old(stats)
      ensures source.Some? && MatchCount(source.value, channelId) > 0 && !writeSucceeds ==>
                outcome == Raised && stats == old(stats).(errorsCount := old(stats).errorsCount + 1)
      ensures source.Some? && MatchCount(source.value, channelId) > 0 && writeSucceeds ==>
                outcome == Saved(OutputPath(channelId),
                                 AdjustedNodes(source.value, Some(channelId), config.channels, config.defaultOffset))
                && stats == old(stats).(processedChannels := 1,
                                        processedProgrammes := MatchCount(source.value, channelId),
                                        channelsProcessed := old(stats).channelsProcessed
                                          + [ChannelRecord(channelId, MatchCount(source.value, channelId),
                                                           ChannelOffset(config, channelId))])
    {
      if source.None? {
        stats := stats.(errorsCount := stats.errorsCount + 1);
        return Raised;
      }
      var tree := new ElementTree(source.value);
      var programmes := MatchCount(tree.nodes, channelId);
      if programmes == 0 {
        return NoProgrammes;
      }
      var offset := ChannelOffset(config, channelId);
      var adjuster := new XmlTimeAdjuster(config.channels, config.defaultOffset);
      adjuster.AdjustTimes(tree, Some(channelId));
      var outputPath := OutputPath(channelId);
      if !writeSucceeds {
        stats := stats.(errorsCount := stats.errorsCount + 1);
        return Raised;
      }
      stats := stats.(processedChannels := 1, processedProgrammes := programmes,
                      channelsProcessed := stats.channelsProcessed + [ChannelRecord(channelId, programmes, offset)]);
      outcome := Saved(outputPath, tree.nodes);
    }
  }

  /**
   * For a non-empty id, the count the processor records is the number of
   * programmes the adjuster adjusts in the saved document.
   */
  lemma RecordedCountIsAdjustedCount(nodes: seq<Node>, channelId: string)
    requires channelId != ""
    ensures MatchCount(nodes, channelId) == VisitedCount(nodes, Some(channelId))
  {
    VisitedCountMatches(nodes, channelId);
  }

  /**
   * The empty id, as written: `findall` matches the programmes whose channel
   * is empty, but the adjuster treats an empty channel as no filter, so the
   * saved document has every other channel adjusted and the empty-channel
   * programmes it counted are left as they were.
   */
  lemma EmptyIdAdjustsOtherChannels(nodes: seq<Node>, config: Config)
    ensures AdjustedNodes(nodes, Some(""), config.channels, config.defaultOffset)
            == AdjustedNodes(nodes, None, config.channels, config.defaultOffset)
    ensures forall i :: 0 <= i < |nodes| && Get(nodes[i], "channel") == Some("") ==>
              AdjustedNodes(nodes, Some(""), config.channels, config.defaultOffset)[i] == nodes[i]
  {
    forall i | 0 <= i < |nodes|
      ensures AdjustedNodes(nodes, Some(""), config.channels, config.defaultOffset)[i]
              == AdjustedNodes(nodes, None, config.channels, config.defaultOffset)[i]
      ensures Get(nodes[i], "channel") == Some("") ==>
              AdjustedNodes(nodes, Some(""), config.channels, config.defaultOffset)[i] == nodes[i]
    {
      AdjustedNodesAt(nodes, Some(""), config.channels, config.defaultOffset, i);
      AdjustedNodesAt(nodes, None, config.channels, config.defaultOffset, i);
    }
  }
}
