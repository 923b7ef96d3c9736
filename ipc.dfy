/** The pending-request queue of the IPC service, as the monitor service
    uses it: requests are added per listener and removed per listener. */
module Ipc {
  import opened Sequences

  /** The categories of data a request asks for; `Other` stands for every
      action the monitor service does not handle. */
  datatype Action = OS | PROCESS | Other

  /** A scheduled request: what to fetch, after how many seconds, and which
      listener receives the answer. */
  datatype Request = Request(actions: seq<Action>, delay: int, listener: object)

  /** The command the monitor service always sends. */
  const PollActions: seq<Action> := [PROCESS, OS]

  /** The requests pending for listener `l`, in queue order. */
  function PendingFor(rs: seq<Request>, l: object): seq<Request> {
    Filter(rs, (r: Request) => r.listener == l)
  }

  /** The queue after every request of listener `l` has been removed. */
  function WithoutListener(rs: seq<Request>, l: object): seq<Request> {
    Filter(rs, (r: Request) => r.listener != l)
  }

  class IpcService {
    var requests: seq<Request>

    constructor ()
      ensures requests == []
    {
      requests := [];
    }

    /** `addRequest`: appends one request. */
    method AddRequest(actions: seq<Action>, delay: int, listener: object)
      modifies this
      ensures requests == old(requests) + [Request(actions, delay, listener)]
    {
      requests := requests + [Request(actions, delay, listener)];
    }

    /** `removeRequest`: drops every pending request of `listener`. */
    method RemoveRequest(listener: object)
      modifies this
      ensures requests == WithoutListener(old(requests), listener)
    {
      requests := WithoutListener(requests, listener);
    }
  }

  /** After removal nothing is pending for the removed listener. */
  lemma RemoveClearsListener(rs: seq<Request>, l: object)
    ensures PendingFor(WithoutListener(rs, l), l) == []
  {
    var kept := WithoutListener(rs, l);
    FilterAllKept(rs, (r: Request) => r.listener != l);
    FilterNone(kept, (r: Request) => r.listener == l);
  }

  /** Removal for one listener leaves every other listener's requests as they were. */
  lemma RemoveKeepsOthers(rs: seq<Request>, l: object, m: object)
    requires m != l
    ensures PendingFor(WithoutListener(rs, l), m) == PendingFor(rs, m)
  {
    FilterFilter(rs, (r: Request) => r.listener != l, (r: Request) => r.listener == m);
  }

  /** An added request is the last one pending for its listener, after the
      ones that were already there. */
  lemma AddAppendsPending(rs: seq<Request>, q: Request)
    ensures PendingFor(rs + [q], q.listener) == PendingFor(rs, q.listener) + [q]
  {
    FilterConcat(rs, [q], (r: Request) => r.listener == q.listener);
    assert [q][..0] == [];
  }

  /** Removing a listener's requests and then adding one for it leaves
      exactly that one pending. */
  lemma ReplaceLeavesOne(rs: seq<Request>, q: Request)
    ensures PendingFor(WithoutListener(rs, q.listener) + [q], q.listener) == [q]
  {
    RemoveClearsListener(rs, q.listener);
    AddAppendsPending(WithoutListener(rs, q.listener), q);
  }
}
