/** AgpsStateMachine of gps/gnss/Agps.cpp as an object: the list is walked and erased in place,
    and every event method is proved against the step function of module Agps. */
module AgpsObject {
  import opened Wrappers
  import opened Agps

  /** The list after `erase` at position `i`, where the iterator then stands on the next entry. */
  function Erased(list: seq<Subscriber>, i: nat): seq<Subscriber>
    requires i < |list|
  {
    list[..i] + list[i + 1..]
  }

  lemma SplitAt(list: seq<Subscriber>, i: nat)
    requires i < |list|
    ensures list[i..] != [] && list[i..][0] == list[i] && list[i..][1..] == list[i + 1..]
    ensures Erased(list, i)[..i] == list[..i] && Erased(list, i)[i..] == list[i + 1..]
    ensures list[..i + 1] == list[..i] + [list[i]]
  {
  }

  lemma NotifyStep(sent: seq<Output>, list: seq<Subscriber>, i: nat, notice: Notice, kind: Notification)
    requires i < |list|
    ensures sent + Callbacks(list[i..], notice, kind) ==
            (if Selected(kind, list[i]) then sent + [Callback(notice, list[i].handle)] else sent)
            + Callbacks(list[i + 1..], notice, kind)
    ensures list[..i] + Unselected(list[i..], kind) ==
            if Selected(kind, list[i]) then Erased(list, i)[..i] + Unselected(Erased(list, i)[i..], kind)
            else list[..i + 1] + Unselected(list[i + 1..], kind)
    ensures Erased(list, i)[i..] == list[i + 1..]
  {
    SplitAt(list, i);
    var rest := Unselected(list[i + 1..], kind);
    var notes := Callbacks(list[i + 1..], notice, kind);
    if Selected(kind, list[i]) {
      var note := Callback(notice, list[i].handle);
      assert Callbacks(list[i..], notice, kind) == [note] + notes;
      assert sent + ([note] + notes) == (sent + [note]) + notes;
      assert Unselected(list[i..], kind) == [] + rest;
      assert [] + rest == rest;
    } else {
      assert Callbacks(list[i..], notice, kind) == [] + notes;
      assert [] + notes == notes;
      assert Unselected(list[i..], kind) == [list[i]] + rest;
      assert list[..i] + ([list[i]] + rest) == list[..i + 1] + rest;
    }
  }

  lemma DeleteStep(list: seq<Subscriber>, i: nat, handle: int)
    requires i < |list|
    ensures list[..i] + Without(list[i..], handle) ==
            if list[i].handle == handle then Erased(list, i)[..i] + Without(Erased(list, i)[i..], handle)
            else list[..i + 1] + Without(list[i + 1..], handle)
    ensures Erased(list, i)[i..] == list[i + 1..]
  {
    SplitAt(list, i);
    var rest := Without(list[i + 1..], handle);
    if list[i].handle == handle {
      assert Without(list[i..], handle) == [] + rest;
      assert [] + rest == rest;
    } else {
      assert Without(list[i..], handle) == [list[i]] + rest;
      assert list[..i] + ([list[i]] + rest) == list[..i + 1] + rest;
    }
  }

  class AgpsStateMachine {
    var mState: AgpsState
    var mSubscriberList: seq<Subscriber>
    /** Everything sent so far: framework requests and handle callbacks, in order. */
    var mSent: seq<Output>

    function Current(): Machine
      reads this
    {
      Machine(mState, mSubscriberList)
    }

    constructor ()
      ensures Current() == Initial && mSent == []
    {
      mState, mSubscriberList, mSent := Released, [], [];
    }

    method RequestOrReleaseDataConn(request: bool)
      modifies this`mSent
      ensures mSent == old(mSent) + [if request then RequestDataConn else ReleaseDataConn]
    {
      mSent := mSent + [if request then RequestDataConn else ReleaseDataConn];
    }

    method NotifyEventToSubscriber(notice: Notice, s: Subscriber, deletePostNotify: bool)
      modifies this`mSent, this`mSubscriberList
      ensures mSent == old(mSent) + [Callback(notice, s.handle)]
      ensures mSubscriberList ==
              if deletePostNotify then Without(old(mSubscriberList), s.handle) else old(mSubscriberList)
    {
      mSent := mSent + [Callback(notice, s.handle)];
      if deletePostNotify {
        DeleteSubscriber(s);
      }
    }

    method NotifyAllSubscribers(notice: Notice, deletePostNotify: bool, kind: Notification)
      modifies this`mSent, this`mSubscriberList
      ensures mSent == old(mSent) + Callbacks(old(mSubscriberList), notice, kind)
      ensures mSubscriberList ==
              if deletePostNotify then Unselected(old(mSubscriberList), kind) else old(mSubscriberList)
    {
      var i := 0;
      while i < |mSubscriberList|
        invariant 0 <= i <= |mSubscriberList|
        invariant mSent + Callbacks(mSubscriberList[i..], notice, kind) ==
                  old(mSent) + Callbacks(old(mSubscriberList), notice, kind)
        invariant !deletePostNotify ==> mSubscriberList == old(mSubscriberList)
        invariant deletePostNotify ==>
                    mSubscriberList[..i] + Unselected(mSubscriberList[i..], kind) ==
                    Unselected(old(mSubscriberList), kind)
        decreases |mSubscriberList| - i
      {
        var s := mSubscriberList[i];
        NotifyStep(mSent, mSubscriberList, i, notice, kind);
        if Selected(kind, s) {
          NotifyEventToSubscriber(notice, s, false);
          if deletePostNotify {
            mSubscriberList := Erased(mSubscriberList, i);
          } else {
            i := i + 1;
          }
        } else {
          i := i + 1;
        }
      }
      assert mSubscriberList[i..] == [];
    }

    method AddSubscriber(s: Subscriber)
      modifies this`mSubscriberList
      ensures mSubscriberList == Add(old(mSubscriberList), s)
    {
      LookupFinds(mSubscriberList, s.handle);
      var i := 0;
      while i < |mSubscriberList|
        invariant 0 <= i <= |mSubscriberList|
        invariant forall k :: 0 <= k < i ==> mSubscriberList[k].handle != s.handle
      {
        if mSubscriberList[i].handle == s.handle {
          return;
        }
        i := i + 1;
      }
      mSubscriberList := mSubscriberList + [s];
    }

    method DeleteSubscriber(s: Subscriber)
      modifies this`mSubscriberList
      ensures mSubscriberList == Without(old(mSubscriberList), s.handle)
    {
      var i := 0;
      while i < |mSubscriberList|
        invariant 0 <= i <= |mSubscriberList|
        invariant mSubscriberList[..i] + Without(mSubscriberList[i..], s.handle) ==
                  Without(old(mSubscriberList), s.handle)
        decreases |mSubscriberList| - i
      {
        DeleteStep(mSubscriberList, i, s.handle);
        if mSubscriberList[i].handle == s.handle {
          mSubscriberList := Erased(mSubscriberList, i);
        } else {
          i := i + 1;
        }
      }
      assert mSubscriberList[i..] == [];
    }

    method GetSubscriber(handle: int) returns (found: Option<Subscriber>, index: nat)
      ensures found == Lookup(mSubscriberList, handle)
      ensures found.Some? ==> index < |mSubscriberList| && mSubscriberList[index] == found.value
      ensures found.Some? ==> forall k :: 0 <= k < index ==> mSubscriberList[k].handle != handle
    {
      index := 0;
      while index < |mSubscriberList|
        invariant 0 <= index <= |mSubscriberList|
        invariant Lookup(mSubscriberList[index..], handle) == Lookup(mSubscriberList, handle)
        invariant forall k :: 0 <= k < index ==> mSubscriberList[k].handle != handle
      {
        if mSubscriberList[index].handle == handle {
          return Some(mSubscriberList[index]), index;
        }
        assert mSubscriberList[index..][1..] == mSubscriberList[index + 1..];
        index := index + 1;
      }
      found := None;
    }

    method AnyActiveSubscribers() returns (any: bool)
      ensures any <==> AnyActive(mSubscriberList)
    {
      var i := 0;
      while i < |mSubscriberList|
        invariant 0 <= i <= |mSubscriberList|
        invariant forall k :: 0 <= k < i ==> mSubscriberList[k].inactive
      {
        if !mSubscriberList[i].inactive {
          return true;
        }
        i := i + 1;
      }
      any := false;
    }

    /** Writes the inactive flag of the entry that the current subscriber points to. */
    method SetInactive(index: nat)
      requires index < |mSubscriberList|
      requires forall k :: 0 <= k < index ==> mSubscriberList[k].handle != mSubscriberList[index].handle
      modifies this`mSubscriberList
      ensures mSubscriberList == Deactivate(old(mSubscriberList), old(mSubscriberList)[index].handle)
    {
      DeactivateAt(mSubscriberList, index);
      mSubscriberList := mSubscriberList[index := mSubscriberList[index].(inactive := true)];
    }

    method ProcessSubscribe(s: Subscriber)
      modifies this
      ensures Current() == Step(old(Current()), Subscribe(s)).machine
      ensures mSent == old(mSent) + Step(old(Current()), Subscribe(s)).outputs
    {
      match mState
      case Released =>
        AddSubscriber(s);
        RequestOrReleaseDataConn(true);
        mState := Pending;
      case Pending =>
        AddSubscriber(s);
      case Acquired =>
        NotifyEventToSubscriber(GrantedNotice, s, false);
        AddSubscriber(s);
      case Releasing =>
        AddSubscriber(s);
    }

    /** releaseATL: find the entry of the handle, then process UNSUBSCRIBE for it. */
    method ProcessUnsubscribe(handle: int)
      modifies this
      ensures Current() == Step(old(Current()), Unsubscribe(handle)).machine
      ensures mSent == old(mSent) + Step(old(Current()), Unsubscribe(handle)).outputs
    {
      LookupFinds(mSubscriberList, handle);
      var found, index := GetSubscriber(handle);
      if found.None? {
        return;
      }
      var s := found.value;
      if mState == Released {
        NotifyEventToSubscriber(ClosedNotice, s, false);
        return;
      }
      if s.waitForClose {
        SetInactive(index);
      } else {
        NotifyEventToSubscriber(ClosedNotice, s, true);
      }
      if mState == Releasing {
        if |mSubscriberList| == 0 {
          mState := Released;
        }
      } else {
        var any := AnyActiveSubscribers();
        if |mSubscriberList| == 0 {
          mState := Released;
          RequestOrReleaseDataConn(false);
        } else if !any {
          mState := Releasing;
          RequestOrReleaseDataConn(false);
        }
      }
    }

    method ProcessGranted()
      modifies this
      ensures Current() == Step(old(Current()), Granted).machine
      ensures mSent == old(mSent) + Step(old(Current()), Granted).outputs
    {
      if mState == Pending {
        mState := Acquired;
        NotifyAllSubscribers(GrantedNotice, false, ForActive);
      }
    }

    method FinishReleasing()
      modifies this
      ensures Current() == FinishRelease(old(Current())).machine
      ensures mSent == old(mSent) + FinishRelease(old(Current())).outputs
    {
      NotifyAllSubscribers(ClosedNotice, true, ForInactive);
      var any := AnyActiveSubscribers();
      if any {
        mState := Pending;
        RequestOrReleaseDataConn(true);
      } else {
        mState := Released;
      }
    }

    method ProcessReleased()
      modifies this
      ensures Current() == Step(old(Current()), ReleasedByFramework).machine
      ensures mSent == old(mSent) + Step(old(Current()), ReleasedByFramework).outputs
    {
      match mState
      case Released =>
      case Acquired =>
        mState := Released;
        NotifyAllSubscribers(ClosedNotice, true, ForAll);
      case Releasing =>
        FinishReleasing();
      case Pending =>
    }

    method ProcessDenied()
      modifies this
      ensures Current() == Step(old(Current()), Denied).machine
      ensures mSent == old(mSent) + Step(old(Current()), Denied).outputs
    {
      match mState
      case Released =>
      case Acquired =>
      case Releasing =>
        FinishReleasing();
      case Pending =>
        mState := Released;
        NotifyAllSubscribers(DeniedNotice, true, ForAll);
    }

    method DropAllSubscribers()
      modifies this
      ensures Current() == Step(old(Current()), ModemRestart).machine
      ensures mSent == old(mSent) + Step(old(Current()), ModemRestart).outputs
    {
      while |mSubscriberList| > 0
        invariant mState == old(mState) && mSent == old(mSent)
        decreases |mSubscriberList|
      {
        mSubscriberList := mSubscriberList[1..];
      }
    }
  }

  lemma {:induction false} DeactivateAt(list: seq<Subscriber>, index: nat)
    requires index < |list|
    requires forall k :: 0 <= k < index ==> list[k].handle != list[index].handle
    ensures Deactivate(list, list[index].handle) == list[index := list[index].(inactive := true)]
  {
    if index > 0 {
      DeactivateAt(list[1..], index - 1);
    }
  }
}
