/** Playback of the collected hits on the fixed pool of mixer channels
    (drum.py:10, 102-106). Each channel is seen only through its busy flag;
    playing a sound makes it busy and the audio layer clears it later. */
module Voices {
  import opened Wrappers

  /** `CHANNELS`: eight `pygame.mixer.Channel` objects. */
  const ChannelCount: nat := 8

  /** The lowest-numbered channel that is not busy. */
  function FirstFree(busy: seq<bool>): (c: Option<nat>)
    ensures c.Some? ==> c.value < |busy| && !busy[c.value] && forall j :: 0 <= j < c.value ==> busy[j]
    ensures c.None? ==> forall j :: 0 <= j < |busy| ==> busy[j]
  {
    if busy == [] then None
    else if !busy[0] then Some(0)
    else match FirstFree(busy[1..])
      case None => None
      case Some(k) => Some(k + 1)
  }

  /** The channel each hit is played on (`None`: dropped) and the busy flags afterwards. */
  function Dispatch<T>(hits: seq<T>, busy: seq<bool>): (r: (seq<Option<nat>>, seq<bool>))
    ensures |r.0| == |hits| && |r.1| == |busy|
  {
    if hits == [] then ([], busy)
    else
      var c := FirstFree(busy);
      var rest := Dispatch(hits[1..], if c.Some? then busy[c.value := true] else busy);
      ([c] + rest.0, rest.1)
  }

  function CountFree(busy: seq<bool>): nat {
    if busy == [] then 0 else (if busy[0] then 0 else 1) + CountFree(busy[1..])
  }

  function CountPlayed(channels: seq<Option<nat>>): nat {
    if channels == [] then 0 else (if channels[0].Some? then 1 else 0) + CountPlayed(channels[1..])
  }

  /** Busy channels are never touched; a hit only goes to a channel that was
      free, which is busy afterwards; a channel changes only if a hit took it. */
  lemma {:induction false} DispatchFrame<T>(hits: seq<T>, busy: seq<bool>)
    ensures forall j :: 0 <= j < |busy| && busy[j] ==> Dispatch(hits, busy).1[j]
    ensures forall i :: 0 <= i < |hits| && Dispatch(hits, busy).0[i].Some? ==>
              var c := Dispatch(hits, busy).0[i].value;
              c < |busy| && !busy[c] && Dispatch(hits, busy).1[c]
    ensures forall j :: 0 <= j < |busy| && Dispatch(hits, busy).1[j] && !busy[j] ==>
              Some(j) in Dispatch(hits, busy).0
  {
    if hits != [] {
      var c := FirstFree(busy);
      var next := if c.Some? then busy[c.value := true] else busy;
      DispatchFrame(hits[1..], next);
      var (channels, after) := Dispatch(hits, busy);
      var rest := Dispatch(hits[1..], next).0;
      assert channels == [c] + rest;
      forall i | 0 <= i < |hits| && channels[i].Some?
        ensures channels[i].value < |busy| && !busy[channels[i].value] && after[channels[i].value]
      {
        if i > 0 {
          assert channels[i] == rest[i - 1];
        }
      }
      forall j | 0 <= j < |busy| && after[j] && !busy[j]
        ensures Some(j) in channels
      {
        if !next[j] {
          assert Some(j) in rest;
        }
      }
    }
  }

  /** When every channel below `m` is busy, no hit goes below `m`. */
  lemma {:induction false} DispatchAbove<T>(hits: seq<T>, busy: seq<bool>, m: nat)
    requires m <= |busy| && forall j :: 0 <= j < m ==> busy[j]
    ensures forall i :: 0 <= i < |hits| && Dispatch(hits, busy).0[i].Some? ==>
              m <= Dispatch(hits, busy).0[i].value
  {
    if hits != [] {
      var c := FirstFree(busy);
      var next := if c.Some? then busy[c.value := true] else busy;
      DispatchAbove(hits[1..], next, m);
      assert Dispatch(hits, busy).0 == [c] + Dispatch(hits[1..], next).0;
    }
  }

  /** Assigned channels strictly increase along the hit list. */
  predicate Increasing(channels: seq<Option<nat>>) {
    forall i, k :: 0 <= i < k < |channels| && channels[i].Some? && channels[k].Some? ==>
      channels[i].value < channels[k].value
  }

  /** After the first dropped hit, every hit is dropped. */
  predicate DropsOnlyTail(channels: seq<Option<nat>>) {
    forall i, k :: 0 <= i < k < |channels| && channels[i].None? ==> channels[k].None?
  }

  /** Channels are handed out in increasing order, so distinct hits get
      distinct channels; once a hit is dropped, every later hit is dropped too. */
  lemma {:induction false} DispatchIncreasing<T>(hits: seq<T>, busy: seq<bool>)
    ensures Increasing(Dispatch(hits, busy).0)
    ensures DropsOnlyTail(Dispatch(hits, busy).0)
  {
    if hits != [] {
      var c := FirstFree(busy);
      var next := if c.Some? then busy[c.value := true] else busy;
      DispatchIncreasing(hits[1..], next);
      var rest := Dispatch(hits[1..], next).0;
      var channels := Dispatch(hits, busy).0;
      assert channels == [c] + rest;
      if c.Some? {
        DispatchAbove(hits[1..], next, c.value + 1);
      } else {
        FirstFreeNone(next);
        DispatchFrame(hits[1..], next);
        forall k | 0 < k < |hits| ensures channels[k].None? {
          assert channels[k] == rest[k - 1];
        }
      }
      forall i, k | 0 < i < k < |hits| && channels[i].None?
        ensures channels[k].None?
      {
        assert channels[i] == rest[i - 1] && channels[k] == rest[k - 1];
      }
      forall i, k | 0 <= i < k < |hits| && channels[i].Some? && channels[k].Some?
        ensures channels[i].value < channels[k].value
      {
        assert channels[k] == rest[k - 1];
        if i > 0 {
          assert channels[i] == rest[i - 1];
        }
      }
    }
  }

  lemma FirstFreeNone(busy: seq<bool>)
    requires FirstFree(busy).None?
    ensures forall j :: 0 <= j < |busy| ==> busy[j]
  {
  }

  /** Marking a free channel busy leaves one free channel fewer. */
  lemma {:induction false} CountFreeMark(busy: seq<bool>, c: nat)
    requires c < |busy| && !busy[c]
    ensures CountFree(busy[c := true]) + 1 == CountFree(busy)
  {
    if c > 0 {
      assert busy[c := true][1..] == busy[1..][c - 1 := true];
      CountFreeMark(busy[1..], c - 1);
    }
  }

  /** No free channel is found exactly when no channel is counted free. */
  lemma {:induction false} CountFreeZero(busy: seq<bool>)
    ensures FirstFree(busy).None? <==> CountFree(busy) == 0
  {
    if busy != [] {
      CountFreeZero(busy[1..]);
    }
  }

  /** The number of hits played is the smaller of the number of hits and the
      number of free channels; the rest are dropped. */
  lemma {:induction false} DispatchCount<T>(hits: seq<T>, busy: seq<bool>)
    ensures CountPlayed(Dispatch(hits, busy).0)
         == if |hits| <= CountFree(busy) then |hits| else CountFree(busy)
  {
    if hits != [] {
      var c := FirstFree(busy);
      var next := if c.Some? then busy[c.value := true] else busy;
      DispatchCount(hits[1..], next);
      CountFreeZero(busy);
      if c.Some? {
        CountFreeMark(busy, c.value);
      }
      assert Dispatch(hits, busy).0[1..] == Dispatch(hits[1..], next).0;
    }
  }

  /** Two free channels and three simultaneous hits: the first two hits get
      channels 0 and 1, the third is dropped. */
  lemma TwoVoicesThreeHits()
    ensures Dispatch(["snare", "hi_hat", "crash_cymbal"], [false, false]).0 == [Some(0), Some(1), None]
  {
  }

  /** The playback loop of drum.py:102-106, on the channels' busy flags in place:
      each hit scans the channels in order and takes the first idle one. */
  method PlayHits<T>(busy: array<bool>, hits: seq<T>) returns (channels: seq<Option<nat>>)
    modifies busy
    ensures channels == Dispatch(hits, old(busy[..])).0
    ensures busy[..] == Dispatch(hits, old(busy[..])).1
  {
    channels := [];
    var i := 0;
    assert hits[i..] == hits;
    while i < |hits|
      invariant 0 <= i <= |hits|
      invariant Dispatch(hits, old(busy[..])).0 == channels + Dispatch(hits[i..], busy[..]).0
      invariant Dispatch(hits, old(busy[..])).1 == Dispatch(hits[i..], busy[..]).1
    {
      ghost var before := busy[..];
      var played: Option<nat> := None;
      var ch := 0;
      while ch < busy.Length
        invariant 0 <= ch <= busy.Length
        invariant busy[..] == before && played.None?
        invariant forall j :: 0 <= j < ch ==> before[j]
      {
        if !busy[ch] {
          busy[ch] := true;
          played := Some(ch);
          break;
        }
        ch := ch + 1;
      }
      assert played == FirstFree(before);
      assert busy[..] == if played.Some? then before[played.value := true] else before;
      assert hits[i..][1..] == hits[i + 1..];
      assert Dispatch(hits[i..], before).0 == [played] + Dispatch(hits[i + 1..], busy[..]).0;
      channels := channels + [played];
      i := i + 1;
    }
    assert hits[i..] == [];
  }
}
