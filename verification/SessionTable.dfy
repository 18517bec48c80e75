/** The map from session ids to the current control and its gate (session_table.rs).
    Every method is one section executed while the lock of the map is held; the
    functions give their effect, and the protocol in SessionProtocol is built on them. */
module SessionTable {
  import opened Wrappers

  type SessionId = string
  type ControlId = nat  // a control is identified by its generation
  type GateId = nat     // the identity of a gate's allocation

  datatype Entry = Entry(control: ControlId, gate: GateId)

  type Table = map<SessionId, Entry>

  function Get(t: Table, sid: SessionId): Option<Entry> {
    if sid in t then Some(t[sid]) else None
  }

  predicate IsCurrent(t: Table, sid: SessionId, c: ControlId) {
    sid in t && t[sid].control == c
  }

  /** Someone else installed an entry under another gate since the gate was peeked. */
  predicate GateIsStale(t: Table, sid: SessionId, gate: GateId) {
    sid in t && t[sid].gate != gate
  }

  function WithEntry(t: Table, sid: SessionId, c: ControlId, gate: GateId): Table {
    t[sid := Entry(c, gate)]
  }

  /** The control that an installation replaces. */
  function Previous(t: Table, sid: SessionId): Option<ControlId> {
    match Get(t, sid) case Some(e) => Some(e.control) case None => None
  }

  function WithoutCurrent(t: Table, sid: SessionId, c: ControlId): Table {
    if IsCurrent(t, sid, c) then t - {sid} else t
  }

  datatype Swapped = Retry | Replaced(previous: Option<ControlId>)

  class Sessions {
    var entries: Table

    constructor ()
      ensures entries == map[]
    {
      entries := map[];
    }

    method Peek(sid: SessionId) returns (e: Option<Entry>)
      ensures e == Get(entries, sid)
    {
      if sid in entries {
        e := Some(entries[sid]);
      } else {
        e := None;
      }
    }

    /** The body of the retry loop of swap_in_locked after the gate has been acquired. */
    method Install(sid: SessionId, control: ControlId, gate: GateId) returns (r: Swapped)
      modifies this
      ensures r.Retry? <==> GateIsStale(old(entries), sid, gate)
      ensures r.Retry? ==> entries == old(entries)
      ensures r.Replaced? ==> entries == WithEntry(old(entries), sid, control, gate)
      ensures r.Replaced? ==> r.previous == Previous(old(entries), sid)
    {
      var previous := None;
      if sid in entries {
        var entry := entries[sid];
        if entry.gate != gate {
          return Retry;
        }
        previous := Some(entry.control);
      }
      entries := entries[sid := Entry(control, gate)];
      r := Replaced(previous);
    }

    method RemoveIfSame(sid: SessionId, control: ControlId) returns (removed: bool)
      modifies this
      ensures removed <==> IsCurrent(old(entries), sid, control)
      ensures entries == WithoutCurrent(old(entries), sid, control)
    {
      removed := false;
      if sid in entries && entries[sid].control == control {
        entries := entries - {sid};
        removed := true;
      }
    }
  }
}
