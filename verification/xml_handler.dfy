/**
 * `XmlTimeAdjuster` (src/xml_handler.py): walks the programme elements of a
 * parsed EPG document, all of them or one channel's, and rewrites their
 * `start`/`stop` attributes in place by the channel's offset, counting what
 * it visited.
 *
 * The document is the sequence of children of its root element, in document
 * order. An element keeps its attributes in a map and the rest of its markup
 * (text and children) as an opaque sequence that no operation here reads.
 */
module XmlHandler {
  import opened Wrappers
  import opened Timestamps

  /** The constructor's default offset, in seconds. */
  const DEFAULT_OFFSET := 30

  datatype Node =
    | Element(tag: string, attrs: map<string, string>, content: seq<string>)
    | Comment(text: string)

  /** ElementTree's `element.get(name)`. */
  function Get(n: Node, name: string): Option<string> {
    if n.Element? && name in n.attrs then Some(n.attrs[name]) else None
  }

  /** ElementTree's `element.set(name, value)`. */
  function Set(n: Node, name: string, value: string): Node
    requires n.Element?
  {
    n.(attrs := n.attrs[name := value])
  }

  /** Python's truthiness of an optional string: present and non-empty. */
  predicate Truthy(s: Option<string>) {
    s.Some? && s.value != ""
  }

  predicate IsProgramme(n: Node) {
    n.Element? && n.tag == "programme"
  }

  /**
   * `findall('.//programme')`, or `findall(".//programme[@channel='c']")`
   * when a non-empty `specificChannel` is given.
   */
  predicate Selected(n: Node, specificChannel: Option<string>) {
    IsProgramme(n) && (Truthy(specificChannel) ==> Get(n, "channel") == specificChannel)
  }

  /** A selected programme with a non-empty `channel`: the loop body runs for it. */
  predicate Visited(n: Node, specificChannel: Option<string>) {
    Selected(n, specificChannel) && Truthy(Get(n, "channel"))
  }

  /** One value of `channel_offsets`; only its `offset` key is read. */
  datatype ChannelEntry = ChannelEntry(offset: Option<int>)

  /**
   * `channel_offsets.get(c, {}).get('offset', default_offset)`: the channel's
   * own offset when it is configured with one, the default otherwise.
   */
  function EffectiveOffset(channelOffsets: map<string, ChannelEntry>, defaultOffset: int, channel: string): (r: int)
    ensures channel in channelOffsets && channelOffsets[channel].offset.Some? ==> r == channelOffsets[channel].offset.value
    ensures channel !in channelOffsets || channelOffsets[channel].offset.None? ==> r == defaultOffset
  {
    if channel in channelOffsets && channelOffsets[channel].offset.Some?
    then channelOffsets[channel].offset.value
    else defaultOffset
  }

  // ---------------------------------------------------------------------------
  // What one adjustment does to one element
  // ---------------------------------------------------------------------------

  /**
   * The rewrite of one time attribute: replaced by its shifted text when it is
   * present, non-empty and adjustable; otherwise left as it was.
   */
  function AdjustField(attrs: map<string, string>, name: string, offset: int): (r: map<string, string>)
    ensures r.Keys == attrs.Keys
    ensures forall k :: k in attrs && k != name ==> r[k] == attrs[k]
    ensures name in attrs && r[name] != attrs[name] ==> AdjustTime(attrs[name], offset) == Some(r[name])
    ensures name in attrs && attrs[name] != "" && AdjustTime(attrs[name], offset).Some?
            ==> r[name] == AdjustTime(attrs[name], offset).value
  {
    if name in attrs && attrs[name] != "" then
      match AdjustTime(attrs[name], offset)
      case Some(v) => attrs[name := v]
      case None => attrs
    else attrs
  }

  /**
   * A programme with `start` and then `stop` rewritten by `offset`: the tag,
   * the content and every other attribute stay as they were.
   */
  function AdjustNode(n: Node, offset: int): (r: Node)
    ensures r.Element? == n.Element?
    ensures n.Element? ==> r.tag == n.tag && r.content == n.content && r.attrs.Keys == n.attrs.Keys
    ensures n.Element? ==> forall k :: k in n.attrs && k != "start" && k != "stop" ==> r.attrs[k] == n.attrs[k]
    ensures n.Element? ==> r.attrs == AdjustField(AdjustField(n.attrs, "start", offset), "stop", offset)
    ensures n.Comment? ==> r == n
  {
    match n
    case Element(tag, attrs, content) =>
      Element(tag, AdjustField(AdjustField(attrs, "start", offset), "stop", offset), content)
    case Comment(_) => n
  }

  /** What `adjust_times` leaves in place of one child of the root. */
  function Step(n: Node, specificChannel: Option<string>, channelOffsets: map<string, ChannelEntry>, defaultOffset: int): Node {
    if Visited(n, specificChannel)
    then AdjustNode(n, EffectiveOffset(channelOffsets, defaultOffset, Get(n, "channel").value))
    else n
  }

  /** The document after `adjust_times`, child by child. */
  function AdjustedNodes(nodes: seq<Node>, specificChannel: Option<string>,
                         channelOffsets: map<string, ChannelEntry>, defaultOffset: int): (r: seq<Node>)
    ensures |r| == |nodes|
  {
    if nodes == [] then []
    else AdjustedNodes(nodes[..|nodes| - 1], specificChannel, channelOffsets, defaultOffset)
         + [Step(nodes[|nodes| - 1], specificChannel, channelOffsets, defaultOffset)]
  }

  /** Each child of the adjusted document is the adjustment of the child at the same place. */
  lemma {:induction false} AdjustedNodesAt(nodes: seq<Node>, specificChannel: Option<string>,
                                          channelOffsets: map<string, ChannelEntry>, defaultOffset: int, i: int)
    requires 0 <= i < |nodes|
    ensures AdjustedNodes(nodes, specificChannel, channelOffsets, defaultOffset)[i]
            == Step(nodes[i], specificChannel, channelOffsets, defaultOffset)
    decreases |nodes|
  {
    if i < |nodes| - 1 {
      AdjustedNodesAt(nodes[..|nodes| - 1], specificChannel, channelOffsets, defaultOffset, i);
    }
  }

  /** How many programmes `adjust_times` counts. */
  function VisitedCount(nodes: seq<Node>, specificChannel: Option<string>): (c: nat)
    ensures c <= |nodes|
  {
    if nodes == [] then 0
    else VisitedCount(nodes[..|nodes| - 1], specificChannel)
         + (if Visited(nodes[|nodes| - 1], specificChannel) then 1 else 0)
  }

  /** The channel ids `adjust_times` records. */
  function VisitedChannels(nodes: seq<Node>, specificChannel: Option<string>): set<string> {
    if nodes == [] then {}
    else VisitedChannels(nodes[..|nodes| - 1], specificChannel)
         + (if Visited(nodes[|nodes| - 1], specificChannel) then {Get(nodes[|nodes| - 1], "channel").value} else {})
  }

  /** One more child visited: the counters grow by that child alone. */
  lemma VisitedPrefix(nodes: seq<Node>, specificChannel: Option<string>, i: int)
    requires 0 <= i < |nodes|
    ensures VisitedCount(nodes[..i + 1], specificChannel)
            == VisitedCount(nodes[..i], specificChannel) + (if Visited(nodes[i], specificChannel) then 1 else 0)
    ensures VisitedChannels(nodes[..i + 1], specificChannel)
            == VisitedChannels(nodes[..i], specificChannel)
               + (if Visited(nodes[i], specificChannel) then {Get(nodes[i], "channel").value} else {})
  {
    assert nodes[..i + 1][..i] == nodes[..i];
  }

  /** `len(root.findall(".//programme[@channel='c']"))`. */
  function MatchCount(nodes: seq<Node>, channel: string): (c: nat)
    ensures c <= |nodes|
  {
    if nodes == [] then 0
    else MatchCount(nodes[..|nodes| - 1], channel)
         + (if IsProgramme(nodes[|nodes| - 1]) && Get(nodes[|nodes| - 1], "channel") == Some(channel) then 1 else 0)
  }

  /** The text of the comment `process_xml` puts first under the root. */
  function CommentText(now: string, programmes: nat): string {
    " Processado em " + now + " - " + Text.Decimal(programmes) + " programas ajustados "
  }

  /** `process_xml` stores the offsets map it is given as `{c: {'offset': v}}`. */
  function OffsetEntries(channelOffsets: map<string, int>): (r: map<string, ChannelEntry>)
    ensures r.Keys == channelOffsets.Keys
    ensures forall c :: c in r ==> r[c].offset == Some(channelOffsets[c])
  {
    map c | c in channelOffsets :: ChannelEntry(Some(channelOffsets[c]))
  }

  /**
   * The block `adjust_times` and `adjust_program_times` each run for `start`
   * and for `stop`: read the attribute, shift it, and write it back when both
   * the old and the new value are non-empty.
   */
  method AdjustAttribute(n: Node, name: string, offsetSeconds: int) returns (r: Node)
    requires n.Element?
    ensures r == n.(attrs := AdjustField(n.attrs, name, offsetSeconds))
  {
    r := n;
    var value := Get(n, name);
    if Truthy(value) {
      var adjusted := AdjustTime(value.value, offsetSeconds);
      assert adjusted.Some? ==> |adjusted.value| >= |ZONE_SUFFIX|;
      if Truthy(adjusted) {
        r := Set(n, name, adjusted.value);
      }
    }
  }

  /** Both time attributes of a programme rewritten, `start` first and then `stop`. */
  method AdjustProgramme(n: Node, offsetSeconds: int) returns (r: Node)
    ensures r == AdjustNode(n, offsetSeconds)
  {
    r := n;
    if n.Element? {
      r := AdjustAttribute(r, "start", offsetSeconds);
      r := AdjustAttribute(r, "stop", offsetSeconds);
    }
  }

  // ---------------------------------------------------------------------------
  // The document and the adjuster
  // ---------------------------------------------------------------------------

  /** A parsed document; `nodes` are the children of its root element. */
  class ElementTree {
    var nodes: seq<Node>

    constructor (nodes: seq<Node>)
      ensures this.nodes == nodes
    {
      this.nodes := nodes;
    }
  }

  /** The statistics `get_processing_stats` reports. */
  datatype ProcessingStats = ProcessingStats(channelsProcessed: nat, programsProcessed: nat,
                                             errorsCount: nat, errors: seq<string>)

  class XmlTimeAdjuster {
    var channelOffsets: map<string, ChannelEntry>
    var defaultOffset: int
    var processedProgrammes: nat
    var processedChannels: set<string>
    var errors: seq<string>

    /** `XmlTimeAdjuster(channel_offsets, default_offset)`; a missing map is the empty map. */
    constructor (channelOffsets: map<string, ChannelEntry>, defaultOffset: int := DEFAULT_OFFSET)
      ensures this.channelOffsets == channelOffsets && this.defaultOffset == defaultOffset
      ensures processedProgrammes == 0 && processedChannels == {} && errors == []
    {
      this.channelOffsets := channelOffsets;
      this.defaultOffset := defaultOffset;
      processedProgrammes := 0;
      processedChannels := {};
      errors := [];
    }

    /**
     * `adjust_times(tree, specific_channel)`: rewrites the visited programmes
     * of `tree` in place and adds them to the counters, which it never resets.
     */
    method AdjustTimes(tree: ElementTree, specificChannel: Option<string>)
      modifies this`processedProgrammes, this`processedChannels, tree
      ensures tree.nodes == AdjustedNodes(old(tree.nodes), specificChannel, channelOffsets, defaultOffset)
      ensures processedProgrammes == old(processedProgrammes) + VisitedCount(old(tree.nodes), specificChannel)
      ensures processedChannels == old(processedChannels) + VisitedChannels(old(tree.nodes), specificChannel)
    {
      ghost var nodes0 := tree.nodes;
      ghost var target := AdjustedNodes(nodes0, specificChannel, channelOffsets, defaultOffset);
      var i := 0;
      while i < |tree.nodes|
        invariant 0 <= i <= |nodes0| == |tree.nodes|
        invariant forall j :: 0 <= j < i ==> tree.nodes[j] == target[j]
        invariant forall j :: i <= j < |nodes0| ==> tree.nodes[j] == nodes0[j]
        invariant processedProgrammes == old(processedProgrammes) + VisitedCount(nodes0[..i], specificChannel)
        invariant processedChannels == old(processedChannels) + VisitedChannels(nodes0[..i], specificChannel)
      {
        VisitedPrefix(nodes0, specificChannel, i);
        AdjustedNodesAt(nodes0, specificChannel, channelOffsets, defaultOffset, i);
        var programme := tree.nodes[i];
        var channelId := Get(programme, "channel");
        if Selected(programme, specificChannel) && Truthy(channelId) {
          var offsetSeconds := EffectiveOffset(channelOffsets, defaultOffset, channelId.value);
          programme := AdjustProgramme(programme, offsetSeconds);
          tree.nodes := tree.nodes[i := programme];
          processedProgrammes := processedProgrammes + 1;
          processedChannels := processedChannels + {channelId.value};
        }
        i := i + 1;
      }
      assert nodes0[..i] == nodes0;
    }

    /**
     * `adjust_program_times(program, offset_seconds)`, the element being the
     * child of `tree` at `index`: the same rewrite as the bulk path with an
     * explicit offset, one more programme counted and no channel recorded.
     */
    method AdjustProgramTimes(tree: ElementTree, index: nat, offsetSeconds: int)
      requires index < |tree.nodes|
      modifies this`processedProgrammes, tree
      ensures tree.nodes == old(tree.nodes)[index := AdjustNode(old(tree.nodes)[index], offsetSeconds)]
      ensures processedProgrammes == old(processedProgrammes) + 1
    {
      var program := AdjustProgramme(tree.nodes[index], offsetSeconds);
      tree.nodes := tree.nodes[index := program];
      processedProgrammes := processedProgrammes + 1;
    }

    /**
     * The part of `process_xml` between parsing and writing: a non-empty
     * offsets map replaces the per-channel configuration, the default offset
     * is always replaced, every programme is adjusted, and a comment carrying
     * the run's time and the programme counter is put first under the root.
     */
    method ProcessTree(tree: ElementTree, channelOffsets: map<string, int>, now: string,
                       defaultOffset: int := DEFAULT_OFFSET)
      modifies this, tree
      ensures this.channelOffsets == if |channelOffsets| > 0 then OffsetEntries(channelOffsets) else old(this.channelOffsets)
      ensures this.defaultOffset == defaultOffset && errors == old(errors)
      ensures processedProgrammes == old(processedProgrammes) + VisitedCount(old(tree.nodes), None)
      ensures processedChannels == old(processedChannels) + VisitedChannels(old(tree.nodes), None)
      ensures tree.nodes == [Comment(CommentText(now, processedProgrammes))]
                            + AdjustedNodes(old(tree.nodes), None, this.channelOffsets, defaultOffset)
    {
      if |channelOffsets| > 0 {
        this.channelOffsets := OffsetEntries(channelOffsets);
      }
      this.defaultOffset := defaultOffset;
      AdjustTimes(tree, None);
      tree.nodes := [Comment(CommentText(now, processedProgrammes))] + tree.nodes;
    }

    /** `get_processing_stats()`. */
    function GetProcessingStats(): (r: ProcessingStats)
      reads this
      ensures r.errorsCount == |r.errors| && r.errors == errors
      ensures r.channelsProcessed == |processedChannels| && r.programsProcessed == processedProgrammes
    {
      ProcessingStats(|processedChannels|, processedProgrammes, |errors|, errors)
    }
  }

  // ---------------------------------------------------------------------------
  // Properties of a run
  // ---------------------------------------------------------------------------

  /** With a non-empty channel, the programmes counted are exactly those `findall` returns for it. */
  lemma {:induction false} VisitedCountMatches(nodes: seq<Node>, channel: string)
    requires channel != ""
    ensures VisitedCount(nodes, Some(channel)) == MatchCount(nodes, channel)
  {
    if nodes != [] {
      VisitedCountMatches(nodes[..|nodes| - 1], channel);
    }
  }

  /** With a non-empty channel, only that channel is recorded, and only if it has programmes. */
  lemma {:induction false} VisitedChannelsOne(nodes: seq<Node>, channel: string)
    requires channel != ""
    ensures VisitedChannels(nodes, Some(channel)) == if MatchCount(nodes, channel) > 0 then {channel} else {}
  {
    if nodes != [] {
      VisitedChannelsOne(nodes[..|nodes| - 1], channel);
    }
  }

  /** Programmes of other channels, and everything that is not a programme, are left untouched. */
  lemma OnlySelectedChange(nodes: seq<Node>, channel: string, channelOffsets: map<string, ChannelEntry>,
                           defaultOffset: int, i: int)
    requires channel != "" && 0 <= i < |nodes|
    requires !IsProgramme(nodes[i]) || Get(nodes[i], "channel") != Some(channel)
    ensures AdjustedNodes(nodes, Some(channel), channelOffsets, defaultOffset)[i] == nodes[i]
  {
    AdjustedNodesAt(nodes, Some(channel), channelOffsets, defaultOffset, i);
  }

  /**
   * A channel without programmes: nothing is counted or recorded and the
   * document is returned as it was.
   */
  lemma {:induction false} EmptySelectionIsNoOp(nodes: seq<Node>, channel: string,
                                               channelOffsets: map<string, ChannelEntry>, defaultOffset: int)
    requires channel != "" && MatchCount(nodes, channel) == 0
    ensures AdjustedNodes(nodes, Some(channel), channelOffsets, defaultOffset) == nodes
    ensures VisitedCount(nodes, Some(channel)) == 0 && VisitedChannels(nodes, Some(channel)) == {}
  {
    VisitedCountMatches(nodes, channel);
    VisitedChannelsOne(nodes, channel);
    forall i | 0 <= i < |nodes|
      ensures !IsProgramme(nodes[i]) || Get(nodes[i], "channel") != Some(channel)
    {
      if IsProgramme(nodes[i]) && Get(nodes[i], "channel") == Some(channel) {
        MatchCountPositive(nodes, channel, i);
      }
    }
    forall i | 0 <= i < |nodes|
      ensures AdjustedNodes(nodes, Some(channel), channelOffsets, defaultOffset)[i] == nodes[i]
    {
      OnlySelectedChange(nodes, channel, channelOffsets, defaultOffset, i);
    }
  }

  lemma {:induction false} MatchCountPositive(nodes: seq<Node>, channel: string, i: int)
    requires 0 <= i < |nodes| && IsProgramme(nodes[i]) && Get(nodes[i], "channel") == Some(channel)
    ensures MatchCount(nodes, channel) > 0
    decreases |nodes|
  {
    if i < |nodes| - 1 {
      MatchCountPositive(nodes[..|nodes| - 1], channel, i);
    }
  }

  /**
   * A malformed time is left byte-identical while its programme is still
   * counted (`"notadate"` in `start`).
   */
  lemma MalformedTimeKept(n: Node, specificChannel: Option<string>, channelOffsets: map<string, ChannelEntry>,
                          defaultOffset: int)
    requires Visited(n, specificChannel) && Get(n, "start") == Some("notadate")
    ensures Get(Step(n, specificChannel, channelOffsets, defaultOffset), "start") == Some("notadate")
    ensures VisitedCount([n], specificChannel) == 1
  {
    assert DatePart("notadate") == "notadate" by {
      assert Text.BeforeFirst("notadate", ' ') == "notadate";
    }
    assert ParseDateTime("notadate") == None;
    if Visited(n, specificChannel) {
      var offset := EffectiveOffset(channelOffsets, defaultOffset, Get(n, "channel").value);
      var start := AdjustField(n.attrs, "start", offset);
      assert AdjustTime("notadate", offset) == None;
      assert start["start"] == "notadate";
      assert AdjustField(start, "stop", offset)["start"] == "notadate";
    }
  }
}
