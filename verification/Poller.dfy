/** Channels and the epoll wrapper of one loop: registration state kept in step with the kernel's interest set. */
module Pollers {

  /** The registration state of a channel in its poller. */
  const K_NEW := -1
  const K_ADDED := 1
  const K_DELETED := 2

  type Mask = bv8 // the interest bits all lie in the low byte

  const EPOLLIN: Mask := 1
  const EPOLLPRI: Mask := 2
  const EPOLLOUT: Mask := 4
  const NONE_EVENT: Mask := 0
  const READ_EVENT: Mask := EPOLLIN | EPOLLPRI
  const WRITE_EVENT: Mask := EPOLLOUT

  datatype CtlOp = CtlAdd | CtlMod | CtlDel

  predicate Reads(m: Mask) { m & READ_EVENT != 0 }

  predicate Writes(m: Mask) { m & WRITE_EVENT != 0 }

  /** The bit operations of the `Enable` and `Disable` members. */
  function With(m: Mask, e: Mask): Mask { m | e }

  function Without(m: Mask, e: Mask): Mask { m & !e }

  /** Switching one interest on or off leaves the other as it was. */
  lemma InterestsAreIndependent(m: Mask)
    ensures Reads(With(m, READ_EVENT)) && (Writes(With(m, READ_EVENT)) <==> Writes(m))
    ensures Writes(With(m, WRITE_EVENT)) && (Reads(With(m, WRITE_EVENT)) <==> Reads(m))
    ensures !Reads(Without(m, READ_EVENT)) && (Writes(Without(m, READ_EVENT)) <==> Writes(m))
    ensures !Writes(Without(m, WRITE_EVENT)) && (Reads(Without(m, WRITE_EVENT)) <==> Reads(m))
    ensures !Reads(NONE_EVENT) && !Writes(NONE_EVENT)
  {
  }

  /** In bits: input and urgent data are 1 and 2, room for output is 4. */
  lemma InterestBits(m: Mask)
    ensures With(m, READ_EVENT) & 3 == 3 && With(m, READ_EVENT) & 4 == m & 4 && With(m, READ_EVENT) != 0
    ensures With(m, WRITE_EVENT) & 4 == 4 && With(m, WRITE_EVENT) & 3 == m & 3 && With(m, WRITE_EVENT) != 0
    ensures Without(m, READ_EVENT) & 3 == 0 && Without(m, READ_EVENT) & 4 == m & 4
    ensures Without(m, WRITE_EVENT) & 4 == 0 && Without(m, WRITE_EVENT) & 3 == m & 3
    ensures NONE_EVENT == 0
    ensures (Reads(m) <==> m & 1 != 0 || m & 2 != 0) && (Writes(m) <==> m & 4 != 0)
  {
  }

  class Channel {
    const fd: int
    const poller: EPollPoller // the one of the loop the channel belongs to
    var events: Mask
    var index: int

    constructor (fd: int, poller: EPollPoller)
      ensures this.fd == fd && this.poller == poller
      ensures events == NONE_EVENT && index == K_NEW
    {
      this.fd, this.poller := fd, poller;
      events, index := NONE_EVENT, K_NEW;
    }

    predicate IsNoneEvent()
      reads this
    {
      events == NONE_EVENT
    }

    predicate IsReading()
      reads this
    {
      Reads(events)
    }

    predicate IsWriting()
      reads this
    {
      Writes(events)
    }

    method EnableReading()
      requires poller.Valid() && this in poller.channels
      modifies this, poller`kernel, poller`channelMap
      ensures events == With(old(events), READ_EVENT)
      ensures IsReading() && IsWriting() == old(IsWriting())
      ensures poller.Updated(this) && poller.Valid()
      ensures fd in poller.kernel && poller.kernel[fd] & 3 == 3 && poller.kernel[fd] & 4 == old(events) & 4
    {
      hide Reads, Writes, With, Without;
      InterestBits(events);
      InterestsAreIndependent(events);
      events := With(events, READ_EVENT);
      Update();
    }

    method DisableReading()
      requires poller.Valid() && this in poller.channels
      modifies this, poller`kernel, poller`channelMap
      ensures events == Without(old(events), READ_EVENT)
      ensures !IsReading() && IsWriting() == old(IsWriting())
      ensures poller.Updated(this) && poller.Valid()
      ensures events & 3 == 0 && events & 4 == old(events) & 4
      ensures fd in poller.kernel ==> poller.kernel[fd] & 3 == 0
    {
      hide Reads, Writes, With, Without;
      InterestBits(events);
      InterestsAreIndependent(events);
      events := Without(events, READ_EVENT);
      Update();
    }

    method EnableWriting()
      requires poller.Valid() && this in poller.channels
      modifies this, poller`kernel, poller`channelMap
      ensures events == With(old(events), WRITE_EVENT)
      ensures IsWriting() && IsReading() == old(IsReading())
      ensures poller.Updated(this) && poller.Valid()
      ensures fd in poller.kernel && poller.kernel[fd] & 4 == 4 && poller.kernel[fd] & 3 == old(events) & 3
    {
      hide Reads, Writes, With, Without;
      InterestBits(events);
      InterestsAreIndependent(events);
      events := With(events, WRITE_EVENT);
      Update();
    }

    method DisableWriting()
      requires poller.Valid() && this in poller.channels
      modifies this, poller`kernel, poller`channelMap
      ensures events == Without(old(events), WRITE_EVENT)
      ensures !IsWriting() && IsReading() == old(IsReading())
      ensures poller.Updated(this) && poller.Valid()
      ensures events & 4 == 0 && events & 3 == old(events) & 3
      ensures fd in poller.kernel ==> poller.kernel[fd] & 4 == 0
    {
      hide Reads, Writes, With, Without;
      InterestBits(events);
      InterestsAreIndependent(events);
      events := Without(events, WRITE_EVENT);
      Update();
    }

    method DisableAll()
      requires poller.Valid() && this in poller.channels
      modifies this, poller`kernel, poller`channelMap
      ensures events == NONE_EVENT && !IsReading() && !IsWriting()
      ensures poller.Updated(this) && poller.Valid()
      ensures fd in poller.kernel <==> old(index) != K_ADDED
      ensures fd in poller.kernel ==> poller.kernel[fd] == 0
    {
      hide Reads, Writes;
      InterestBits(events);
      InterestsAreIndependent(events);
      events := NONE_EVENT;
      Update();
    }

    method Update()
      requires poller.ValidBut(this)
      modifies this`index, poller`kernel, poller`channelMap
      ensures poller.Updated(this) && poller.Valid()
    {
      poller.UpdateChannel(this);
    }

    method Remove()
      requires poller.Valid() && this in poller.channels
      modifies this`index, poller`kernel, poller`channelMap
      ensures poller.Valid() && index == K_NEW && fd !in poller.channelMap
      ensures poller.kernel == old(poller.kernel) - {fd}
    {
      poller.RemoveChannel(this);
    }
  }

  class EPollPoller {
    var channelMap: map<int, Channel>
    ghost var channels: set<Channel>  // the live channels of this loop
    ghost var kernel: map<int, Mask>  // the interest set the kernel keeps for the epoll descriptor

    constructor ()
      ensures Valid() && channels == {} && kernel == map[]
    {
      channelMap, channels, kernel := map[], {}, map[];
    }

    /** Registration state and kernel agree: added means present with exactly the current mask,
        deleted means absent with an empty mask, new means unknown to the poller. */
    ghost predicate InStep(c: Channel)
      reads this, c
    {
      && Known(c)
      && (c.index == K_ADDED ==> kernel[c.fd] == c.events)
      && (c.index == K_DELETED ==> c.events == NONE_EVENT)
    }

    /** The same, without looking at the masks. */
    ghost predicate Known(c: Channel)
      reads this, c`index
    {
      && c.index in {K_NEW, K_ADDED, K_DELETED}
      && (c.index == K_ADDED <==> c.fd in kernel)
      && (c.index != K_NEW <==> c.fd in channelMap)
      && (c.fd in channelMap ==> channelMap[c.fd] == c)
    }

    ghost predicate DistinctFds()
      reads this
    {
      && (forall c :: c in channels ==> c.poller == this)
      && (forall c, d :: c in channels && d in channels && c != d ==> c.fd != d.fd)
      && (forall fd :: fd in channelMap ==> channelMap[fd] in channels && channelMap[fd].fd == fd)
      && kernel.Keys <= channelMap.Keys
    }

    ghost predicate Valid()
      reads this, channels
    {
      DistinctFds() && forall c :: c in channels ==> InStep(c)
    }

    /** Valid except that the mask of `ch` has changed and the kernel does not know it yet. */
    ghost predicate ValidBut(ch: Channel)
      reads this, channels
    {
      && DistinctFds() && ch in channels && Known(ch)
      && forall c :: c in channels && c != ch ==> InStep(c)
    }

    /** After an update of `ch`: present with its mask unless the mask is empty and it was registered; the rest
        untouched. */
    twostate predicate Updated(ch: Channel)
      reads this, ch
    {
      && (ch.fd in kernel <==> ch.events != NONE_EVENT || old(ch.index) != K_ADDED)
      && (ch.fd in kernel ==> kernel[ch.fd] == ch.events)
      && kernel - {ch.fd} == old(kernel) - {ch.fd}
      && ch.index == (if ch.fd in kernel then K_ADDED else K_DELETED)
      && channelMap == old(channelMap)[ch.fd := ch]
    }

    /** A freshly built channel joins the loop under a descriptor no other live channel uses. */
    ghost method Adopt(c: Channel)
      requires Valid() && c.poller == this && c.index == K_NEW
      requires forall d :: d in channels ==> d.fd != c.fd
      modifies this`channels
      ensures Valid() && channels == old(channels) + {c}
    {
      channels := channels + {c};
    }

    /** A channel that has been removed leaves the loop, and a later one may use its descriptor. */
    ghost method Retire(c: Channel)
      requires Valid() && c in channels && c.index == K_NEW
      modifies this`channels
      ensures Valid() && channels == old(channels) - {c}
      ensures c.fd !in kernel && c.fd !in channelMap && forall d :: d in channels ==> d.fd != c.fd
    {
      channels := channels - {c};
    }

    /** The system call; the kernel refuses to add what is present and to modify or delete what is absent,
        so the preconditions say that no call of the poller is ever refused. */
    ghost method EpollCtl(op: CtlOp, fd: int, events: Mask)
      requires op.CtlAdd? ==> fd !in kernel
      requires !op.CtlAdd? ==> fd in kernel
      modifies this`kernel
      ensures kernel == if op.CtlDel? then old(kernel) - {fd} else old(kernel)[fd := events]
    {
      if op.CtlDel? {
        kernel := kernel - {fd};
      } else {
        kernel := kernel[fd := events];
      }
    }

    method UpdateChannel(ch: Channel)
      requires ValidBut(ch)
      modifies ch`index, this`kernel, this`channelMap
      ensures Updated(ch) && Valid()
    {
      var index := ch.index;
      if index == K_NEW || index == K_DELETED {
        if index == K_NEW {
          channelMap := channelMap[ch.fd := ch];
        }
        ch.index := K_ADDED;
        EpollCtl(CtlAdd, ch.fd, ch.events);
      } else {
        if ch.IsNoneEvent() {
          EpollCtl(CtlDel, ch.fd, ch.events);
          ch.index := K_DELETED;
        } else {
          EpollCtl(CtlMod, ch.fd, ch.events);
        }
      }
    }

    method RemoveChannel(ch: Channel)
      requires Valid() && ch in channels
      modifies ch`index, this`kernel, this`channelMap
      ensures Valid() && ch.index == K_NEW
      ensures kernel == old(kernel) - {ch.fd} && channelMap == old(channelMap) - {ch.fd}
    {
      channelMap := channelMap - {ch.fd};
      if ch.index == K_ADDED {
        EpollCtl(CtlDel, ch.fd, ch.events);
      }
      ch.index := K_NEW;
    }

    method HasPoller(ch: Channel) returns (has: bool)
      requires Valid() && ch in channels
      ensures has <==> ch.index != K_NEW
    {
      has := ch.fd in channelMap && channelMap[ch.fd] == ch;
    }

    lemma KnownChannel(c: Channel)
      requires Valid() && c in channels
      ensures c.index in {K_NEW, K_ADDED, K_DELETED} && (c.index == K_ADDED <==> c.fd in kernel)
    {
      assert InStep(c);
    }

    /** Which descriptors the kernel watches, and for what, is read off the live channels. */
    lemma KernelMirrorsChannels(c: Channel)
      requires Valid() && c in channels
      ensures c.index == K_ADDED <==> c.fd in kernel && kernel[c.fd] == c.events
      ensures c.index == K_DELETED ==> c.fd !in kernel && c.events == NONE_EVENT
    {
      assert InStep(c);
    }
  }
}
