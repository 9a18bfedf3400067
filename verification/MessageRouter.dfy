/** Typed dispatch of a payload into the PSP's global stores (apps/psp/src/message_router.c). */
module MessageRouter {
  import opened Bytes
  import opened Options
  import PayloadCodec
  import opened Protocol

  datatype Stores = Stores(stats: Stats, git: Git, notif: Notif, remoteCommand: byte, newNotification: bool)

  const EMPTY_STORES := Stores(NO_STATS, NO_GIT, NO_NOTIF, 0, false)

  /** The bytes a message needs before it is accepted; other messages carry no payload the router reads. */
  function RequiredSize(messageId: uint32): nat {
    if messageId == SYSTEM_STATS then STATS_SIZE
    else if messageId == GIT_STATUS then GIT_SIZE
    else if messageId == NOTIFICATION then NOTIFICATION_SIZE
    else if messageId == CONTROL then CONTROL_SIZE
    else 0
  }

  predicate Typed(messageId: uint32) {
    SYSTEM_STATS <= messageId <= CONTROL
  }

  /**
   The stores after a payload was routed: at most the one store its message names is touched, and a
   rejected payload touches none.
   */
  function Route(s: Stores, messageId: uint32, payload: seq<byte>): (t: Stores)
    ensures t.stats != s.stats ==> messageId == SYSTEM_STATS && t == s.(stats := t.stats)
    ensures t.git != s.git ==> messageId == GIT_STATUS && t == s.(git := t.git)
    ensures t.notif != s.notif || t.newNotification != s.newNotification ==>
              messageId == NOTIFICATION && t == s.(notif := t.notif, newNotification := true)
    ensures t.remoteCommand != s.remoteCommand ==> messageId == CONTROL && t == s.(remoteCommand := t.remoteCommand)
    ensures |payload| < RequiredSize(messageId) ==> t == s
    ensures Terminated(s.notif) ==> Terminated(t.notif)
  {
    if !Typed(messageId) || |payload| < RequiredSize(messageId) then s
    else if messageId == SYSTEM_STATS then s.(stats := ParseStats(payload))
    else if messageId == GIT_STATUS then s.(git := ParseGit(payload))
    else if messageId == NOTIFICATION then s.(notif := ParseNotif(payload), newNotification := true)
    else s.(remoteCommand := payload[0])
  }

  function RouteCode(messageId: uint32, size: nat): int {
    if Typed(messageId) && size < RequiredSize(messageId) then 1 - messageId as int else 0
  }

  class Router {
    var stats: Stats
    var git: Git
    var notif: Notif
    var remoteCommand: byte
    var newNotification: bool

    ghost function State(): Stores
      reads this
    {
      Stores(stats, git, notif, remoteCommand, newNotification)
    }

    constructor ()
      ensures State() == EMPTY_STORES
    {
      stats, git, notif, remoteCommand, newNotification := NO_STATS, NO_GIT, NO_NOTIF, 0, false;
    }

    /**
     Routes the first `payloadSize` bytes of the caller's static buffer. The result and the stores do not
     depend on what the buffer holds beyond them.
     */
    method Dispatch(header: Option<Header>, buffer: array?<byte>) returns (ret: int)
      requires header.Some? && buffer != null ==> header.value.payloadSize <= buffer.Length
      modifies this
      ensures header.None? || buffer == null ==> ret == -1 && State() == old(State())
      ensures header.Some? && buffer != null ==>
                var id, size := header.value.messageId, header.value.payloadSize;
                ret == if id == SYSTEM_STATS && size < 20 then -2 else if id == GIT_STATUS && size < 40 then -3
                       else if id == NOTIFICATION && size < 128 then -4 else if id == CONTROL && size < 1 then -5 else 0
      ensures header.Some? && buffer != null ==>
                var h := header.value;
                ret == RouteCode(h.messageId, h.payloadSize)
                && State() == Route(old(State()), h.messageId, buffer[..h.payloadSize])
    {
      if header.None? || buffer == null {
        return -1;
      }
      var h := header.value;
      if h.messageId == SYSTEM_STATS {
        var r, out := PayloadCodec.DeserializeStats(buffer, h.payloadSize, Some(stats));
        stats := out.value;
        return if r == 0 then 0 else -2;
      } else if h.messageId == GIT_STATUS {
        var r, out := PayloadCodec.DeserializeGit(buffer, h.payloadSize, Some(git));
        git := out.value;
        return if r == 0 then 0 else -3;
      } else if h.messageId == NOTIFICATION {
        var r, out := PayloadCodec.DeserializeNotif(buffer, h.payloadSize, Some(notif));
        notif := out.value;
        if r == 0 {
          newNotification := true;
          return 0;
        }
        return -4;
      } else if h.messageId == CONTROL {
        var r, out := PayloadCodec.DeserializeControl(buffer, h.payloadSize, Some(0));
        if r == 0 {
          remoteCommand := out.value;
          return 0;
        }
        return -5;
      }
      return 0;
    }
  }
}
