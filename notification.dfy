/** The end of main: the events detected in this run are compared with the
    ones stored by the previous run, and when some are new a notification
    goes out and the store is replaced by this run's list. The store is a
    JSON file on disk; here it is a field of a class, and the file being
    absent is an empty initial list. */
module Notification {
  import opened Wrappers

  /** The detected events that the store does not hold, in detection order. */
  function Unseen(detected: seq<string>, stored: seq<string>): (r: seq<string>)
    ensures |r| <= |detected|
    ensures forall x :: x in r <==> x in detected && x !in stored
    decreases |detected|
  {
    if detected == [] then []
    else
      var n := |detected| - 1;
      Unseen(detected[..n], stored) + (if detected[n] in stored then [] else [detected[n]])
  }

  /** Unseen keeps order: its result is a subsequence of the detected list,
      witnessed by increasing positions, and every position whose event the
      store lacks is among them, repeats included. */
  lemma {:induction false} UnseenIsSubsequence(detected: seq<string>, stored: seq<string>) returns (pos: seq<nat>)
    ensures |pos| == |Unseen(detected, stored)|
    ensures forall k :: 0 <= k < |pos| ==> pos[k] < |detected| && detected[pos[k]] == Unseen(detected, stored)[k]
    ensures forall k, l :: 0 <= k < l < |pos| ==> pos[k] < pos[l]
    ensures forall i :: 0 <= i < |detected| && detected[i] !in stored ==> i in pos
    decreases |detected|
  {
    if detected == [] {
      pos := [];
    } else {
      var n := |detected| - 1;
      var prev := UnseenIsSubsequence(detected[..n], stored);
      var u, uPrev := Unseen(detected, stored), Unseen(detected[..n], stored);
      assert u == uPrev + (if detected[n] in stored then [] else [detected[n]]);
      if detected[n] in stored {
        pos := prev;
      } else {
        pos := prev + [n];
      }
      PositionsStep(detected, u, uPrev, prev, pos);
      CoverStep(detected, stored, prev, pos);
    }
  }

  /** The other step: every position the store lacks stays covered. */
  lemma CoverStep(detected: seq<string>, stored: seq<string>, prev: seq<nat>, pos: seq<nat>)
    requires |detected| > 0 && |prev| <= |pos| && pos[..|prev|] == prev
    requires forall i :: 0 <= i < |detected| - 1 && detected[..|detected| - 1][i] !in stored ==> i in prev
    requires detected[|detected| - 1] !in stored ==> |pos| > |prev| && pos[|prev|] == |detected| - 1
    ensures forall i :: 0 <= i < |detected| && detected[i] !in stored ==> i in pos
  {
    var n := |detected| - 1;
    forall i | 0 <= i < |detected| && detected[i] !in stored ensures i in pos {
      if i == n {
        assert pos[|prev|] == n;
      } else {
        assert detected[..n][i] == detected[i];
        assert i in prev;
        var k :| 0 <= k < |prev| && prev[k] == i;
        assert pos[..|prev|][k] == pos[k];
      }
    }
  }

  /** One step of UnseenIsSubsequence: positions into the detected list
      without its last entry stay valid for the whole list. */
  lemma PositionsStep(detected: seq<string>, u: seq<string>, uPrev: seq<string>, prev: seq<nat>, pos: seq<nat>)
    requires |detected| > 0 && |prev| == |uPrev| <= |u| == |pos|
    requires forall k :: 0 <= k < |prev| ==> prev[k] < |detected| - 1 && detected[..|detected| - 1][prev[k]] == uPrev[k]
    requires pos[..|prev|] == prev && u[..|uPrev|] == uPrev
    requires |pos| > |prev| ==> |pos| == |prev| + 1 && pos[|prev|] == |detected| - 1 && u[|uPrev|] == detected[|detected| - 1]
    ensures forall k :: 0 <= k < |pos| ==> pos[k] < |detected| && detected[pos[k]] == u[k]
  {
    forall k | 0 <= k < |pos| ensures pos[k] < |detected| && detected[pos[k]] == u[k] {
      if k < |prev| {
        assert pos[k] == pos[..|prev|][k] && u[k] == u[..|uPrev|][k];
      }
    }
  }

  /** Nothing is new against a store that holds every detected event. */
  lemma {:induction false} UnseenOfCovered(detected: seq<string>, stored: seq<string>)
    requires forall x :: x in detected ==> x in stored
    ensures Unseen(detected, stored) == []
    decreases |detected|
  {
    if detected != [] {
      var n := |detected| - 1;
      assert detected[n] in detected;
      UnseenOfCovered(detected[..n], stored);
    }
  }

  /** The list of new events, computed by the loop of main. */
  method NewEvents(detected: seq<string>, stored: seq<string>) returns (newEvents: seq<string>)
    ensures newEvents == Unseen(detected, stored)
  {
    newEvents := [];
    for i := 0 to |detected|
      invariant newEvents == Unseen(detected[..i], stored)
    {
      assert detected[..i + 1][..i] == detected[..i];
      if detected[i] !in stored {
        newEvents := newEvents + [detected[i]];
      }
    }
    assert detected[..|detected|] == detected;
  }

  /** The events file, as the list it holds. */
  class EventStore {
    var events: seq<string>

    /** Loading the file; an absent file reads as an empty list. */
    constructor (onDisk: Option<seq<string>>)
      ensures events == (if onDisk.Some? then onDisk.value else [])
    {
      events := if onDisk.Some? then onDisk.value else [];
    }

    /** The notification step: find the new events; when there are some,
        notify and store this run's list in place of the old one. When the
        script is not running live, nothing happens. */
    method Notify(notify: bool, detected: seq<string>) returns (sent: seq<string>)
      modifies this
      ensures notify ==> sent == Unseen(detected, old(events))
      ensures !notify ==> sent == []
      ensures events == (if sent != [] then detected else old(events))
      ensures notify ==> forall x :: x in detected ==> x in events
    {
      sent := [];
      if notify {
        sent := NewEvents(detected, events);
        if sent != [] {
          events := detected;
        }
      }
    }
  }

  /** After a live run, every detected event is in the store, so a second
      live run over the same detections sends nothing and keeps the store. */
  lemma NotifyTwiceSendsOnce(stored: seq<string>, detected: seq<string>)
    ensures var afterFirst := if Unseen(detected, stored) != [] then detected else stored;
      Unseen(detected, afterFirst) == []
  {
    var afterFirst := if Unseen(detected, stored) != [] then detected else stored;
    UnseenOfCovered(detected, afterFirst);
  }

  /** The store keeps only the last notifying run's list: an event that
      stopped being detected in a run that notified is notified again when
      it comes back. */
  lemma ClearedEventIsNotifiedAgain(stored: seq<string>, first: seq<string>, second: seq<string>, e: string)
    requires Unseen(first, stored) != []
    requires e !in first && e in second
    ensures e in Unseen(second, first)
  {
  }
}
