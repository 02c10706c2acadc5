/**
 * Resolving a caller's channel selection against a layer's channel list
 * (`inspect_channels` and the two `ChannelParameter` impls).
 *
 * A selection is an ordered list of requests, one per slot of the pixel
 * tuple. Each request names a channel and says whether the slot holds a
 * `Sample` (required) or an `Option<Sample>` (optional).
 */
module ChannelSelection {
  import opened Meta

  datatype Presence = Required | Optional

  datatype ChannelRequest = ChannelRequest(name: string, presence: Presence)

  /** `ChannelIndexInfo`: a matched channel, its per-pixel byte offset and its list position. */
  datatype ChannelIndexInfo = ChannelIndexInfo(info: ChannelInfo, sampleByteOffset: nat, channelIndex: nat)

  /**
   * The slot a list channel called `name` fills: the first request with that
   * name, which is what the `if / else if / else if` chain over the tuple does.
   */
  function SlotOf(requests: seq<ChannelRequest>, name: string): (r: Option<nat>)
    ensures r.Some? ==> r.value < |requests| && requests[r.value].name == name
    ensures r.Some? ==> forall k :: 0 <= k < r.value ==> requests[k].name != name
    ensures r.None? ==> forall k :: 0 <= k < |requests| ==> requests[k].name != name
  {
    if requests == [] then None
    else if requests[0].name == name then Some(0)
    else match SlotOf(requests[1..], name)
      case None => None
      case Some(k) => Some(k + 1)
  }

  /** The literal three-way chain of the source's 3-tuple instance. */
  function ThreeWayChain(n0: string, n1: string, n2: string, name: string): Option<nat>
  {
    if name == n0 then Some(0)
    else if name == n1 then Some(1)
    else if name == n2 then Some(2)
    else None
  }

  lemma SlotOfIsElseIfChain(r0: ChannelRequest, r1: ChannelRequest, r2: ChannelRequest, name: string)
    ensures SlotOf([r0, r1, r2], name) == ThreeWayChain(r0.name, r1.name, r2.name, name)
  {
    var rs := [r0, r1, r2];
    if name != r0.name && name != r1.name && name != r2.name {
    } else if name == r0.name {
    } else {
      assert rs[1..] == [r1, r2] && rs[1..][1..] == [r2];
      if name == r1.name {
        assert SlotOf(rs[1..], name) == Some(0);
      } else {
        assert SlotOf(rs[1..][1..], name) == Some(0);
        assert SlotOf(rs[1..], name) == Some(1);
      }
    }
  }

  /**
   * Reference definition of the scan's outcome for slot `j`: the LAST list
   * channel whose name maps to `j`, searched from the end of the list.
   */
  function LastMatch(requests: seq<ChannelRequest>, channels: seq<ChannelInfo>, j: nat): (r: Option<nat>)
    ensures r.Some? ==> r.value < |channels| && SlotOf(requests, channels[r.value].name) == Some(j)
    ensures r.Some? ==> forall i :: r.value < i < |channels| ==> SlotOf(requests, channels[i].name) != Some(j)
    ensures r.None? ==> forall i :: 0 <= i < |channels| ==> SlotOf(requests, channels[i].name) != Some(j)
  {
    if channels == [] then None
    else if SlotOf(requests, channels[|channels| - 1].name) == Some(j) then Some(|channels| - 1)
    else
      var r := LastMatch(requests, channels[..|channels| - 1], j);
      r
  }

  /** What slot `j` holds after the scan. */
  function ResolvedSlot(requests: seq<ChannelRequest>, channels: seq<ChannelInfo>, j: nat): Option<ChannelIndexInfo>
  {
    match LastMatch(requests, channels, j)
    case None => None
    case Some(i) => Some(ChannelIndexInfo(channels[i], SumWidths(channels[..i]), i))
  }

  function ResolvedSlots(requests: seq<ChannelRequest>, channels: seq<ChannelInfo>): seq<Option<ChannelIndexInfo>>
  {
    seq(|requests|, j requires 0 <= j < |requests| => ResolvedSlot(requests, channels, j))
  }

  /**
   * `ChannelParameter::create_channel_pixel_reader` for `Sample` and for
   * `Option<Sample>`: the slot's sample type and its pixel reader, or an
   * error for an unmatched required slot.
   */
  function CreateChannelPixelReader(presence: Presence, slot: Option<ChannelIndexInfo>)
    : (r: Result<(Option<ChannelInfo>, Option<ChannelIndexInfo>)>)
    ensures r.Err? <==> presence == Required && slot.None?
    ensures r.Err? ==> r.error == Invalid(MissingChannelMessage)
    ensures r.Ok? ==> r.value.1 == slot && (r.value.0.Some? <==> slot.Some?)
    ensures r.Ok? && slot.Some? ==> r.value.0 == Some(slot.value.info)
  {
    match presence
    case Required =>
      (match slot
       case None => Err(Invalid(MissingChannelMessage))
       case Some(info) => Ok((Some(info.info), Some(info))))
    case Optional =>
      (match slot
       case None => Ok((None, None))
       case Some(info) => Ok((Some(info.info), Some(info))))
  }

  /** The per-slot sample types (`ChannelsInfo::sample_types`) and pixel readers of a selection. */
  datatype Resolution = Resolution(sampleTypes: seq<Option<ChannelInfo>>, readers: seq<Option<ChannelIndexInfo>>)

  /**
   * The slots finalized in slot order; the `?` after each one returns the
   * first error.
   */
  function Finalize(requests: seq<ChannelRequest>, slots: seq<Option<ChannelIndexInfo>>): (r: Result<Resolution>)
    requires |slots| == |requests|
    ensures r.Ok? ==> |r.value.readers| == |requests| && |r.value.sampleTypes| == |requests|
  {
    if requests == [] then Ok(Resolution([], []))
    else
      var n := |requests| - 1;
      match Finalize(requests[..n], slots[..n])
      case Err(e) => Err(e)
      case Ok(init) =>
        match CreateChannelPixelReader(requests[n].presence, slots[n])
        case Err(e) => Err(e)
        case Ok((t, reader)) => Ok(Resolution(init.sampleTypes + [t], init.readers + [reader]))
  }

  /** `inspect_channels` as a function of its inputs. */
  function Resolve(requests: seq<ChannelRequest>, channels: seq<ChannelInfo>): (r: Result<Resolution>)
    ensures r.Ok? ==> |r.value.readers| == |requests| && |r.value.sampleTypes| == |requests|
    ensures r.Err? ==> r.error == Invalid(MissingChannelMessage)
  {
    FinalizeFails(requests, ResolvedSlots(requests, channels));
    Finalize(requests, ResolvedSlots(requests, channels))
  }

  /** Some list channel has the name that maps to slot `j`. */
  predicate Matched(requests: seq<ChannelRequest>, channels: seq<ChannelInfo>, j: nat)
  {
    exists i :: 0 <= i < |channels| && SlotOf(requests, channels[i].name) == Some(j)
  }

  /** A required slot nobody fills. */
  predicate MissingRequired(requests: seq<ChannelRequest>, channels: seq<ChannelInfo>)
  {
    exists j :: 0 <= j < |requests| && requests[j].presence == Required && !Matched(requests, channels, j)
  }

  /** Finalizing fails exactly when a required slot is empty, with the missing-channel error. */
  lemma {:induction false} FinalizeFails(requests: seq<ChannelRequest>, slots: seq<Option<ChannelIndexInfo>>)
    requires |slots| == |requests|
    ensures Finalize(requests, slots).Err? <==>
      exists j :: 0 <= j < |requests| && requests[j].presence == Required && slots[j].None?
    ensures Finalize(requests, slots).Err? ==> Finalize(requests, slots).error == Invalid(MissingChannelMessage)
  {
    if requests != [] {
      var n := |requests| - 1;
      FinalizeFails(requests[..n], slots[..n]);
      var _ := CreateChannelPixelReader(requests[n].presence, slots[n]);
      if Finalize(requests[..n], slots[..n]).Err? {
        var j :| 0 <= j < n && requests[..n][j].presence == Required && slots[..n][j].None?;
        assert requests[j].presence == Required && slots[j].None?;
      }
    }
  }

  /** The sample type a slot reports: its channel's info, or nothing for an empty slot. */
  function SampleTypeOf(slot: Option<ChannelIndexInfo>): Option<ChannelInfo>
  {
    if slot.Some? then Some(slot.value.info) else None
  }

  /** A successful finalization keeps every slot as its reader and reports its channel's info. */
  lemma {:induction false} FinalizeOk(requests: seq<ChannelRequest>, slots: seq<Option<ChannelIndexInfo>>)
    requires |slots| == |requests|
    requires Finalize(requests, slots).Ok?
    ensures var res := Finalize(requests, slots).value;
      res.readers == slots && |res.sampleTypes| == |requests| &&
      forall j :: 0 <= j < |requests| ==>
        res.sampleTypes[j] == SampleTypeOf(slots[j])
  {
    if requests != [] {
      var n := |requests| - 1;
      var init := Finalize(requests[..n], slots[..n]).value;
      FinalizeOk(requests[..n], slots[..n]);
      var created := CreateChannelPixelReader(requests[n].presence, slots[n]).value;
      var res := Finalize(requests, slots).value;
      assert res == Resolution(init.sampleTypes + [created.0], init.readers + [created.1]);
      assert slots == slots[..n] + [slots[n]];
      assert res.sampleTypes[n] == created.0 == SampleTypeOf(slots[n]);
      forall j | 0 <= j < n
        ensures res.sampleTypes[j] == SampleTypeOf(slots[j])
      {
        assert res.sampleTypes[j] == init.sampleTypes[j];
        assert slots[j] == slots[..n][j];
      }
    }
  }

  /** The slot of a resolved channel is filled by the last list entry that maps to it. */
  lemma ResolvedSlotSpec(requests: seq<ChannelRequest>, channels: seq<ChannelInfo>, j: nat)
    ensures ResolvedSlot(requests, channels, j).None? <==> !Matched(requests, channels, j)
    ensures ResolvedSlot(requests, channels, j).Some? ==>
      var c := ResolvedSlot(requests, channels, j).value;
      && c.channelIndex < |channels|
      && c.info == channels[c.channelIndex]
      && c.sampleByteOffset == SumWidths(channels[..c.channelIndex])
      && requests[j].name == c.info.name
      && forall i :: c.channelIndex < i < |channels| ==> SlotOf(requests, channels[i].name) != Some(j)
  {
  }

  /**
   * `inspect_channels` fails exactly when some required slot has no channel of
   * its name in the list (and not an earlier slot of the same name).
   */
  lemma ResolveFailsIffRequiredMissing(requests: seq<ChannelRequest>, channels: seq<ChannelInfo>)
    ensures Resolve(requests, channels).Err? <==> MissingRequired(requests, channels)
    ensures Resolve(requests, channels).Err? ==> Resolve(requests, channels).error == Invalid(MissingChannelMessage)
  {
    var slots := ResolvedSlots(requests, channels);
    FinalizeFails(requests, slots);
    forall j | 0 <= j < |requests|
      ensures slots[j].None? <==> !Matched(requests, channels, j)
    {
      ResolvedSlotSpec(requests, channels, j);
    }
  }

  /**
   * On success every slot's reader is the channel the scan matched, and the
   * sample type is that channel's info; an optional slot without a match gets
   * `(None, None)`, a required slot always gets a channel.
   */
  lemma ResolveOk(requests: seq<ChannelRequest>, channels: seq<ChannelInfo>)
    requires Resolve(requests, channels).Ok?
    ensures var res := Resolve(requests, channels).value;
      && |res.readers| == |requests| && |res.sampleTypes| == |requests|
      && (forall j :: 0 <= j < |requests| ==> res.readers[j] == ResolvedSlot(requests, channels, j))
      && (forall j :: 0 <= j < |requests| && requests[j].presence == Required ==> res.readers[j].Some?)
      && (forall j :: 0 <= j < |requests| && res.readers[j].None? ==> res.sampleTypes[j].None?)
      && (forall j :: 0 <= j < |requests| && res.readers[j].Some? ==> res.sampleTypes[j] == Some(res.readers[j].value.info))
  {
    FinalizeFails(requests, ResolvedSlots(requests, channels));
    FinalizeOk(requests, ResolvedSlots(requests, channels));
  }

  /**
   * Each matched slot records the per-pixel byte offset of all the channels
   * before its channel in the list.
   */
  lemma ResolvedOffsets(requests: seq<ChannelRequest>, channels: seq<ChannelInfo>, j: nat)
    requires Resolve(requests, channels).Ok?
    requires j < |requests|
    requires Resolve(requests, channels).value.readers[j].Some?
    ensures var c := Resolve(requests, channels).value.readers[j].value;
      && c.channelIndex < |channels|
      && c.info == channels[c.channelIndex]
      && c.sampleByteOffset == SumWidths(channels[..c.channelIndex])
      && c.sampleByteOffset + BytesPerSample(c.info.sampleType) <= SumWidths(channels)
  {
    ResolveOk(requests, channels);
    ResolvedSlotSpec(requests, channels, j);
    var c := Resolve(requests, channels).value.readers[j].value;
    ChannelEndsWithinPixel(channels, c.channelIndex);
  }

  /** A name requested in two slots only ever fills the first of them. */
  lemma DuplicateRequestFillsFirstOnly(requests: seq<ChannelRequest>, channels: seq<ChannelInfo>, j1: nat, j2: nat)
    requires j1 < j2 < |requests|
    requires requests[j1].name == requests[j2].name
    ensures ResolvedSlot(requests, channels, j2).None?
  {
  }

  /** `inspect_channels`: one pass over the channel list, then the slots are finalized. */
  method InspectChannels(requests: seq<ChannelRequest>, channels: seq<ChannelInfo>) returns (r: Result<Resolution>)
    ensures r == Resolve(requests, channels)
  {
    var slots: seq<Option<ChannelIndexInfo>> := seq(|requests|, _ => None);
    var byteOffset: nat := 0;
    for channelIndex := 0 to |channels|
      invariant |slots| == |requests|
      invariant byteOffset == SumWidths(channels[..channelIndex])
      invariant forall j :: 0 <= j < |requests| ==> slots[j] == ResolvedSlot(requests, channels[..channelIndex], j)
    {
      var channel := channels[channelIndex];
      var chanInfo := ChannelIndexInfo(channel, byteOffset, channelIndex);
      var slot := SlotOf(requests, channel.name);
      if slot.Some? {
        slots := slots[slot.value := Some(chanInfo)];
      }
      ghost var next := channels[..channelIndex + 1];
      assert next[..channelIndex] == channels[..channelIndex];
      forall j | 0 <= j < |requests|
        ensures slots[j] == ResolvedSlot(requests, next, j)
      {
        assert next[..channelIndex] == channels[..channelIndex];
        if slot != Some(j) {
          var m := LastMatch(requests, channels[..channelIndex], j);
          assert LastMatch(requests, next, j) == m;
          if m.Some? {
            assert next[..m.value] == channels[..channelIndex][..m.value];
          }
        }
      }
      byteOffset := byteOffset + BytesPerSample(channel.sampleType);
    }
    assert channels[..|channels|] == channels;
    assert slots == ResolvedSlots(requests, channels);

    var sampleTypes: seq<Option<ChannelInfo>> := [];
    var readers: seq<Option<ChannelIndexInfo>> := [];
    for j := 0 to |requests|
      invariant Finalize(requests[..j], slots[..j]) == Ok(Resolution(sampleTypes, readers))
    {
      var created := CreateChannelPixelReader(requests[j].presence, slots[j]);
      assert requests[..j + 1][..j] == requests[..j];
      assert slots[..j + 1][..j] == slots[..j];
      if created.Err? {
        FinalizePrefixError(requests, slots, j + 1);
        return Err(created.error);
      }
      sampleTypes := sampleTypes + [created.value.0];
      readers := readers + [created.value.1];
    }
    assert requests[..|requests|] == requests;
    assert slots[..|requests|] == slots;
    r := Ok(Resolution(sampleTypes, readers));
  }

  /** An error on a prefix of the slots is the error of the whole selection. */
  lemma {:induction false} FinalizePrefixError(requests: seq<ChannelRequest>, slots: seq<Option<ChannelIndexInfo>>, k: nat)
    requires |slots| == |requests| && k <= |requests|
    requires Finalize(requests[..k], slots[..k]).Err?
    ensures Finalize(requests, slots) == Finalize(requests[..k], slots[..k])
    decreases |requests| - k
  {
    if k < |requests| {
      var k' := k + 1;
      assert requests[..k'][..k] == requests[..k];
      assert slots[..k'][..k] == slots[..k];
      FinalizePrefixError(requests, slots, k');
    } else {
      assert requests[..k] == requests && slots[..k] == slots;
    }
  }
}
