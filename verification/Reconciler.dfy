/** The reconciliation of the agent table with the directory's devices. */
module Reconciler {
  import opened Text

  datatype LdapEntry = LdapEntry(uid: Option<string>, dn: Option<string>, cn: Option<string>, password: Option<string>)

  datatype Status = Active | Passive

  datatype Agent = Agent(
    jid: Option<string>, dn: Option<string>, password: Option<string>, hostname: Option<string>,
    ipAddresses: Option<string>, macAddresses: Option<string>, deleted: Option<bool>,
    createDate: Option<int>, modifyDate: Option<int>, eventDate: Option<int>, lastLoginDate: Option<int>,
    status: Option<Status>)

  const NEW_AGENT := Agent(None, None, None, None, None, None, None, None, None, None, None, None)

  // ---- Derived values ------------------------------------------------------------------

  predicate Blank(s: Option<string>) { s.None? || forall c | c in s.value :: IsSpace(c) }

  function WithHost(s: string): string { if EndsWith(s, "-host") then s else s + "-host" }

  function DeriveHostname(e: LdapEntry): string
  {
    if !Blank(e.cn) then WithHost(e.cn.value)
    else if !Blank(e.uid) then WithHost(e.uid.value)
    else "unknown-host"
  }

  /** Every host name ends in `-host`, and only what lacks the ending gets it. */
  lemma HostnamesEndWithHost(e: LdapEntry)
    ensures var h := DeriveHostname(e);
      && EndsWith(h, "-host")
      && (!Blank(e.cn) ==> h == e.cn.value || (!EndsWith(e.cn.value, "-host") && h[..|h| - 5] == e.cn.value))
      && (Blank(e.cn) && !Blank(e.uid) ==>
            h == e.uid.value || (!EndsWith(e.uid.value, "-host") && h[..|h| - 5] == e.uid.value))
  {
    forall s: string ensures (s + "-host")[|s|..] == "-host" && (s + "-host")[..|s|] == s {}
  }

  function Default(s: Option<string>, default: string): Option<string> { if Blank(s) then Some(default) else s }

  function StatusOf(online: bool): Status { if online then Active else Passive }

  /** The directory's name for an agent; entries without one are skipped. */
  function JidOf(e: Option<LdapEntry>): (jid: Option<string>)
    ensures jid.Some? ==> e.Some? && e.value.uid.Some?
  {
    if e.None? || Blank(e.value.uid) then None else Some(Trim(e.value.uid.value))
  }

  // ---- One agent -----------------------------------------------------------------------

  /** The agent after the setters have run. */
  function Updated(a: Agent, e: LdapEntry, jid: string, online: bool, now: int): Agent
  {
    Agent(Some(jid), e.dn, Default(e.password, "secret"), Some(DeriveHostname(e)),
          Default(a.ipAddresses, "127.0.0.1"), Default(a.macAddresses, "00:00:00:00:00:00"), Some(false),
          if a.createDate.None? then Some(now) else a.createDate,
          Some(now),
          if a.eventDate.None? then Some(now) else a.eventDate,
          if online then Some(now) else a.lastLoginDate,
          Some(StatusOf(online)))
  }

  /** The directory has nothing to tell the agent. */
  predicate Current(a: Agent, e: LdapEntry, jid: string, online: bool)
  {
    && a.jid == Some(jid) && a.dn == e.dn && a.password == Default(e.password, "secret")
    && a.hostname == Some(DeriveHostname(e)) && !Blank(a.ipAddresses) && !Blank(a.macAddresses)
    && a.deleted == Some(false) && a.createDate.Some? && a.eventDate.Some? && a.status == Some(StatusOf(online))
  }

  method SetIfChanged<T(==)>(current: T, desired: T, dirty: bool) returns (value: T, dirty': bool)
    ensures value == desired && (dirty' <==> dirty || current != desired)
  {
    value, dirty' := current, dirty;
    if current != desired {
      value, dirty' := desired, true;
    }
  }

  /** Runs the setters; an agent is saved unless it was current and is offline. */
  method Refresh(agent: Agent, e: LdapEntry, jid: string, online: bool, now: int, isNew: bool)
    returns (a: Agent, dirty: bool)
    ensures a == Updated(agent, e, jid, online, now)
    ensures dirty <==> isNew || online || !Current(agent, e, jid, online)
  {
    var ip, mac := agent.ipAddresses, agent.macAddresses;
    dirty := isNew;
    var j, d, p, h, i, m, del;
    j, dirty := SetIfChanged(agent.jid, Some(jid), dirty);
    d, dirty := SetIfChanged(agent.dn, e.dn, dirty);
    p, dirty := SetIfChanged(agent.password, Default(e.password, "secret"), dirty);
    h, dirty := SetIfChanged(agent.hostname, Some(DeriveHostname(e)), dirty);
    i, dirty := SetIfChanged(ip, Default(ip, "127.0.0.1"), dirty);
    m, dirty := SetIfChanged(mac, Default(mac, "00:00:00:00:00:00"), dirty);
    del, dirty := SetIfChanged(agent.deleted, Some(false), dirty);
    DefaultsAreNotBlank(ip, mac);
    a := agent.(jid := j, dn := d, password := p, hostname := h, ipAddresses := i, macAddresses := m, deleted := del);
    if a.createDate.None? {
      a, dirty := a.(createDate := Some(now)), true;
    }
    a := a.(modifyDate := Some(now));
    if a.eventDate.None? {
      a, dirty := a.(eventDate := Some(now)), true;
    }
    if online {
      a, dirty := a.(lastLoginDate := Some(now)), true;
    }
    if a.status != Some(StatusOf(online)) {
      a, dirty := a.(status := Some(StatusOf(online))), true;
    }
  }

  lemma DefaultsAreNotBlank(ip: Option<string>, mac: Option<string>)
    ensures ip == Default(ip, "127.0.0.1") <==> !Blank(ip)
    ensures mac == Default(mac, "00:00:00:00:00:00") <==> !Blank(mac)
    ensures !Blank(Default(ip, "127.0.0.1")) && !Blank(Default(mac, "00:00:00:00:00:00"))
  {
    assert "127.0.0.1"[0] == '1' && "00:00:00:00:00:00"[0] == '0';
    assert '1' in "127.0.0.1" && '0' in "00:00:00:00:00:00";
  }

  // ---- One agent in words --------------------------------------------------------------

  /** The text if it has a character above the blank, else the default. */
  ghost predicate IsOrElse(r: Option<string>, s: Option<string>, default: string)
  {
    r == if s.Some? && !IsBlank(s.value) then s else Some(default)
  }

  /** The first of cn and uid that has more than whitespace, with the ending if it lacks it. */
  ghost predicate IsHostOf(host: string, e: LdapEntry)
  {
    if e.cn.Some? && !IsBlank(e.cn.value) then IsWithHost(host, e.cn.value)
    else if e.uid.Some? && !IsBlank(e.uid.value) then IsWithHost(host, e.uid.value)
    else host == "unknown-host"
  }

  ghost predicate IsWithHost(host: string, name: string)
  {
    if exists stem :: name == stem + "-host" then host == name else host == name + "-host"
  }

  lemma HostInWords(e: LdapEntry)
    ensures IsHostOf(DeriveHostname(e), e)
  {
    forall name: string ensures EndsWith(name, "-host") <==> exists stem :: name == stem + "-host" {
      if EndsWith(name, "-host") { assert name == name[..|name| - 5] + "-host"; }
    }
  }

  /** The name for the agent of an entry: its uid without the whitespace around it. */
  ghost predicate IsJidOf(jid: string, e: Option<LdapEntry>)
  {
    e.Some? && e.value.uid.Some? && IsCore(jid, e.value.uid.value)
  }

  lemma JidInWords(e: Option<LdapEntry>)
    ensures forall jid :: JidOf(e) == Some(jid) <==> IsJidOf(jid, e)
  {
    if e.Some? && e.value.uid.Some? { TrimInWords(e.value.uid.value); }
  }

  /** The row says what the entry and the presence say, and has the defaults. */
  ghost predicate Tells(a: Agent, e: LdapEntry, jid: string, online: bool)
  {
    && a.jid == Some(jid) && a.dn == e.dn && IsOrElse(a.password, e.password, "secret")
    && a.hostname.Some? && IsHostOf(a.hostname.value, e)
    && a.ipAddresses.Some? && !IsBlank(a.ipAddresses.value)
    && a.macAddresses.Some? && !IsBlank(a.macAddresses.value)
    && a.deleted == Some(false) && a.createDate.Some? && a.eventDate.Some?
    && a.status == Some(if online then Active else Passive)
  }

  /** What becomes of an agent that is written: it says what the entry and the presence say, it keeps its addresses and
      dates where it has some, and the login is now if it is online. */
  ghost predicate IsUpdate(a: Agent, earlier: Agent, e: LdapEntry, jid: string, online: bool, now: int)
  {
    && Tells(a, e, jid, online)
    && IsOrElse(a.ipAddresses, earlier.ipAddresses, "127.0.0.1")
    && IsOrElse(a.macAddresses, earlier.macAddresses, "00:00:00:00:00:00")
    && a.createDate == (if earlier.createDate.Some? then earlier.createDate else Some(now))
    && a.eventDate == (if earlier.eventDate.Some? then earlier.eventDate else Some(now))
    && a.modifyDate == Some(now)
    && a.lastLoginDate == (if online then Some(now) else earlier.lastLoginDate)
  }

  lemma UpdatedInWords(a: Agent, e: LdapEntry, jid: string, online: bool, now: int)
    ensures IsUpdate(Updated(a, e, jid, online, now), a, e, jid, online, now)
  {
    hide IsHostOf, DeriveHostname;
    HostInWords(e);
    DefaultsAreNotBlank(a.ipAddresses, a.macAddresses);
  }

  lemma CurrentInWords(a: Agent, e: LdapEntry, jid: string, online: bool)
    ensures Current(a, e, jid, online) <==> Tells(a, e, jid, online)
  {
    hide DeriveHostname;
    HostInWords(e);
    if Tells(a, e, jid, online) { SameHost(a.hostname.value, DeriveHostname(e), e); }
  }

  lemma SameHost(a: string, b: string, e: LdapEntry)
    requires IsHostOf(a, e) && IsHostOf(b, e)
    ensures a == b
  {
  }

  // ---- The table -----------------------------------------------------------------------

  /** The first row of an agent, as `findByJid(jid).get(0)`. */
  function Find(rows: seq<Agent>, jid: string): (i: Option<nat>)
    ensures i.Some? ==> i.value < |rows| && rows[i.value].jid == Some(jid)
    ensures i.Some? ==> forall k | 0 <= k < i.value :: rows[k].jid != Some(jid)
    ensures i.None? ==> forall k | 0 <= k < |rows| :: rows[k].jid != Some(jid)
  {
    if rows == [] then None
    else if rows[0].jid == Some(jid) then Some(0)
    else var i := Find(rows[1..], jid); if i.None? then None else Some(i.value + 1)
  }

  datatype Report = Report(rows: seq<Agent>, created: seq<string>, updated: seq<string>)

  function Step(r: Report, entry: Option<LdapEntry>, online: set<string>, now: int): Report
  {
    var id := JidOf(entry);
    if id.None? then r else
    var jid, e := id.value, entry.value;
    var found := Find(r.rows, jid);
    if found.None? then
      Report(r.rows + [Updated(NEW_AGENT, e, jid, jid in online, now)], r.created + [jid], r.updated)
    else if jid in online || !Current(r.rows[found.value], e, jid, jid in online) then
      var row := Updated(r.rows[found.value], e, jid, jid in online, now);
      Report(r.rows[found.value := row], r.created, r.updated + [jid])
    else r
  }

  function Run(rows: seq<Agent>, entries: seq<Option<LdapEntry>>, online: set<string>, clock: nat -> int): Report
  {
    if entries == [] then Report(rows, [], []) else
    var k := |entries| - 1;
    Step(Run(rows, entries[..k], online, clock), entries[k], online, clock(k))
  }

  class AgentRepository {
    var rows: seq<Agent>

    constructor (rows: seq<Agent>)
      ensures this.rows == rows
    {
      this.rows := rows;
    }

    method Save(at: Option<nat>, a: Agent)
      requires at.Some? ==> at.value < |rows|
      modifies this
      ensures rows == if at.None? then old(rows) + [a] else old(rows)[at.value := a]
    {
      rows := if at.None? then rows + [a] else rows[at.value := a];
    }
  }

  /** `devices` is `None` when the search throws. */
  method ReconcileFromLdap(repository: AgentRepository, devices: Option<seq<Option<LdapEntry>>>, online: set<string>,
                           clock: nat -> int)
    returns (created: seq<string>, updated: seq<string>)
    modifies repository
    ensures devices.None? ==> repository.rows == old(repository.rows) && created == [] && updated == []
    ensures devices.Some? ==>
      Report(repository.rows, created, updated) == Run(old(repository.rows), devices.value, online, clock)
  {
    created, updated := [], [];
    if devices.None? {
      return;
    }
    var entries := devices.value;
    for k := 0 to |entries|
      invariant Report(repository.rows, created, updated) == Run(old(repository.rows), entries[..k], online, clock)
    {
      assert entries[..k + 1][..k] == entries[..k];
      var id := JidOf(entries[k]);
      if id.None? {
        continue;
      }
      var jid, e, now := id.value, entries[k].value, clock(k);
      var found := Find(repository.rows, jid);
      var agent := if found.None? then NEW_AGENT else repository.rows[found.value];
      var a, dirty := Refresh(agent, e, jid, jid in online, now, found.None?);
      if !dirty {
        continue;
      }
      repository.Save(found, a);
      if found.None? {
        created := created + [jid];
      } else {
        updated := updated + [jid];
      }
    }
    assert entries[..|entries|] == entries;
  }

  // ---- A run reaches a fixpoint --------------------------------------------------------

  function Jids(rows: seq<Agent>): set<string> { set i | 0 <= i < |rows| && rows[i].jid.Some? :: rows[i].jid.value }

  function LdapJids(entries: seq<Option<LdapEntry>>): set<string>
  {
    set i | 0 <= i < |entries| && JidOf(entries[i]).Some? :: JidOf(entries[i]).value
  }

  lemma StepJids(r: Report, entry: Option<LdapEntry>, online: set<string>, now: int)
    ensures Jids(Step(r, entry, online, now).rows)
         == Jids(r.rows) + if JidOf(entry).Some? then {JidOf(entry).value} else {}
  {
    var id, r' := JidOf(entry), Step(r, entry, online, now);
    if id.Some? {
      var found := Find(r.rows, id.value);
      if found.None? {
        assert r'.rows[|r.rows|].jid == id;
        assert forall i | 0 <= i < |r.rows| :: r'.rows[i] == r.rows[i];
      } else {
        assert |r'.rows| == |r.rows| && forall i | 0 <= i < |r.rows| :: r'.rows[i].jid == r.rows[i].jid;
      }
    }
  }

  /** The stored jids become the old jids and the directory's. */
  lemma {:induction false} JidsAfterRun(rows: seq<Agent>, entries: seq<Option<LdapEntry>>, online: set<string>,
                                        clock: nat -> int)
    ensures Jids(Run(rows, entries, online, clock).rows) == Jids(rows) + LdapJids(entries)
  {
    if entries != [] {
      var k := |entries| - 1;
      JidsAfterRun(rows, entries[..k], online, clock);
      StepJids(Run(rows, entries[..k], online, clock), entries[k], online, clock(k));
      assert entries == entries[..k] + [entries[k]];
      assert LdapJids(entries)
          == LdapJids(entries[..k]) + if JidOf(entries[k]).Some? then {JidOf(entries[k]).value} else {};
    }
  }

  /** The first row of the entry's agent is current. */
  ghost predicate Settled(rows: seq<Agent>, entry: Option<LdapEntry>, online: set<string>)
  {
    var id := JidOf(entry);
    id.Some? ==>
      var found := Find(rows, id.value);
      found.Some? && Current(rows[found.value], entry.value, id.value, id.value in online)
  }

  lemma UpdatedIsCurrent(a: Agent, e: LdapEntry, jid: string, online: bool, now: int)
    ensures Current(Updated(a, e, jid, online, now), e, jid, online)
  {
    DefaultsAreNotBlank(a.ipAddresses, a.macAddresses);
  }

  lemma FindIs(rows: seq<Agent>, jid: string, i: nat)
    requires i < |rows| && rows[i].jid == Some(jid) && forall k | 0 <= k < i :: rows[k].jid != Some(jid)
    ensures Find(rows, jid) == Some(i)
  {
  }

  lemma StepSettles(r: Report, entry: Option<LdapEntry>, online: set<string>, now: int)
    ensures Settled(Step(r, entry, online, now).rows, entry, online)
  {
    var id := JidOf(entry);
    if id.Some? {
      var found := Find(r.rows, id.value);
      var rows := Step(r, entry, online, now).rows;
      if found.None? {
        UpdatedIsCurrent(NEW_AGENT, entry.value, id.value, id.value in online, now);
        FindIs(rows, id.value, |r.rows|);
      } else {
        UpdatedIsCurrent(r.rows[found.value], entry.value, id.value, id.value in online, now);
        FindIs(rows, id.value, found.value);
      }
    }
  }

  lemma StepKeepsSettled(r: Report, entry: Option<LdapEntry>, online: set<string>, now: int, other: Option<LdapEntry>)
    requires Settled(r.rows, other, online) && (JidOf(entry).Some? ==> JidOf(entry) != JidOf(other))
    ensures Settled(Step(r, entry, online, now).rows, other, online)
  {
    var id := JidOf(other);
    if id.Some? {
      var i := Find(r.rows, id.value).value;
      var rows := Step(r, entry, online, now).rows;
      assert rows[i] == r.rows[i];
      FindIs(rows, id.value, i);
    }
  }

  ghost predicate DistinctUids(entries: seq<Option<LdapEntry>>)
  {
    forall i, j | 0 <= i < j < |entries| && JidOf(entries[i]).Some? :: JidOf(entries[i]) != JidOf(entries[j])
  }

  lemma {:induction false} RunSettles(rows: seq<Agent>, entries: seq<Option<LdapEntry>>, online: set<string>,
                                      clock: nat -> int)
    requires DistinctUids(entries)
    ensures forall i | 0 <= i < |entries| :: Settled(Run(rows, entries, online, clock).rows, entries[i], online)
  {
    if entries != [] {
      var k := |entries| - 1;
      RunSettles(rows, entries[..k], online, clock);
      var r := Run(rows, entries[..k], online, clock);
      StepSettles(r, entries[k], online, clock(k));
      forall i | 0 <= i < k ensures Settled(Run(rows, entries, online, clock).rows, entries[i], online) {
        assert entries[..k][i] == entries[i];
        StepKeepsSettled(r, entries[k], online, clock(k), entries[i]);
      }
    }
  }

  // ---- The table after a run, row by row -----------------------------------------------

  /** What a run makes of the agent of an entry: its first row is left if it says what it should and the agent is
      offline, and else written; a missing one is added. */
  ghost predicate IsTreated(before: seq<Agent>, after: seq<Agent>, e: LdapEntry, jid: string, online: bool, now: int)
  {
    var i, k := Find(before, jid), Find(after, jid);
    && k.Some? && (if i.Some? then k == i else k.value >= |before|)
    && if i.None? then IsUpdate(after[k.value], NEW_AGENT, e, jid, online, now)
       else if !online && Tells(before[i.value], e, jid, online) then after[k.value] == before[i.value]
       else IsUpdate(after[k.value], before[i.value], e, jid, online, now)
  }

  lemma StepTreats(r: Report, entry: Option<LdapEntry>, online: set<string>, now: int)
    requires JidOf(entry).Some?
    ensures var jid, r' := JidOf(entry).value, Step(r, entry, online, now);
      && IsTreated(r.rows, r'.rows, entry.value, jid, jid in online, now)
      && r'.created == r.created + (if Find(r.rows, jid).None? then [jid] else [])
      && r'.updated == r.updated + (if IsRewritten(r.rows, entry, online) then [jid] else [])
  {
    hide Tells, IsUpdate, Current, Updated;
    var jid, e := JidOf(entry).value, entry.value;
    var found, rows := Find(r.rows, jid), Step(r, entry, online, now).rows;
    var agent := if found.None? then NEW_AGENT else r.rows[found.value];
    UpdatedInWords(agent, e, jid, jid in online, now);
    CurrentInWords(agent, e, jid, jid in online);
    UpdatedBearsItsName(agent, e, jid, jid in online, now);
    FindIs(rows, jid, if found.None? then |r.rows| else found.value);
  }

  lemma UpdatedBearsItsName(a: Agent, e: LdapEntry, jid: string, online: bool, now: int)
    ensures Updated(a, e, jid, online, now).jid == Some(jid)
  {
  }

  /** The agent has a row, and is online or its first row does not say what it should. */
  ghost predicate IsRewritten(rows: seq<Agent>, entry: Option<LdapEntry>, online: set<string>)
  {
    var id := JidOf(entry);
    id.Some? && Find(rows, id.value).Some? &&
    (id.value in online || !Tells(rows[Find(rows, id.value).value], entry.value, id.value, id.value in online))
  }

  /** The agent's first row is at the same place with the same content, or there is none in either table. */
  ghost predicate SameRow(before: seq<Agent>, after: seq<Agent>, jid: string)
  {
    var i := Find(before, jid);
    Find(after, jid) == i && (i.Some? ==> after[i.value] == before[i.value])
  }

  /** A step leaves the first row of every other agent. */
  lemma StepLeaves(r: Report, entry: Option<LdapEntry>, online: set<string>, now: int, jid: string)
    requires JidOf(entry) != Some(jid)
    ensures SameRow(r.rows, Step(r, entry, online, now).rows, jid)
    ensures |r.rows| <= |Step(r, entry, online, now).rows|
  {
    hide Current;
    var was, rows := Find(r.rows, jid), Step(r, entry, online, now).rows;
    if was.Some? {
      assert rows[was.value] == r.rows[was.value];
      FindIs(rows, jid, was.value);
    } else {
      assert forall k | 0 <= k < |rows| :: rows[k].jid != Some(jid);
    }
  }

  lemma TreatedFrom(rows: seq<Agent>, before: seq<Agent>, after: seq<Agent>, e: LdapEntry, jid: string, online: bool,
                    now: int)
    requires SameRow(rows, before, jid) && |rows| <= |before| && IsTreated(before, after, e, jid, online, now)
    ensures IsTreated(rows, after, e, jid, online, now)
  {
    hide Tells, IsUpdate;
  }

  lemma TreatedStays(rows: seq<Agent>, before: seq<Agent>, after: seq<Agent>, e: LdapEntry, jid: string, online: bool,
                     now: int)
    requires IsTreated(rows, before, e, jid, online, now) && SameRow(before, after, jid)
    ensures IsTreated(rows, after, e, jid, online, now)
  {
    hide Tells, IsUpdate;
  }

  ghost predicate IsNamed(entries: seq<Option<LdapEntry>>, jid: string)
  {
    exists i :: 0 <= i < |entries| && JidOf(entries[i]) == Some(jid)
  }

  ghost predicate AllTreated(rows: seq<Agent>, after: seq<Agent>, entries: seq<Option<LdapEntry>>, online: set<string>,
                             clock: nat -> int)
  {
    && |rows| <= |after|
    && (forall i | 0 <= i < |entries| && JidOf(entries[i]).Some? ::
          IsTreated(rows, after, entries[i].value, JidOf(entries[i]).value, JidOf(entries[i]).value in online,
                    clock(i)))
    && (forall jid | !IsNamed(entries, jid) :: SameRow(rows, after, jid))
    && (forall k | 0 <= k < |rows| && !IsFirstRow(rows, entries, k) :: after[k] == rows[k])
  }

  /** The first row of an agent that the entries name. */
  ghost predicate IsFirstRow(rows: seq<Agent>, entries: seq<Option<LdapEntry>>, k: nat)
  {
    exists jid :: IsNamed(entries, jid) && Find(rows, jid) == Some(k)
  }

  /** After a run over pairwise distinct names, what it made of each entry's agent; every other row is as before. */
  lemma {:induction false} RowsAfterRun(rows: seq<Agent>, entries: seq<Option<LdapEntry>>, online: set<string>,
                                        clock: nat -> int)
    requires DistinctUids(entries)
    ensures AllTreated(rows, Run(rows, entries, online, clock).rows, entries, online, clock)
  {
    hide IsTreated, IsRewritten, Step, JidOf, SameRow;
    if entries == [] {
      NothingIsSame(rows);
    } else {
      var k := |entries| - 1;
      var front, last := entries[..k], entries[k];
      RowsAfterRun(rows, front, online, clock);
      var r, r' := Run(rows, front, online, clock), Run(rows, entries, online, clock);
      forall jid | JidOf(last) != Some(jid) ensures SameRow(r.rows, r'.rows, jid) && |r.rows| <= |r'.rows| {
        StepLeaves(r, last, online, clock(k), jid);
      }
      StepGrows(r, last, online, clock(k));
      forall i | 0 <= i < k && JidOf(entries[i]).Some?
        ensures IsTreated(rows, r'.rows, entries[i].value, JidOf(entries[i]).value, JidOf(entries[i]).value in online,
                          clock(i))
      {
        assert front[i] == entries[i];
        var jid := JidOf(entries[i]).value;
        TreatedStays(rows, r.rows, r'.rows, entries[i].value, jid, jid in online, clock(i));
      }
      if JidOf(last).Some? {
        var jid := JidOf(last).value;
        assert !IsNamed(front, jid);
        StepTreats(r, last, online, clock(k));
        TreatedFrom(rows, r.rows, r'.rows, last.value, jid, jid in online, clock(k));
      }
      forall jid | !IsNamed(entries, jid) ensures SameRow(rows, r'.rows, jid) {
        NotNamed(entries, jid);
        SameAgain(rows, r.rows, r'.rows, jid);
      }
      forall n | 0 <= n < |rows| && !IsFirstRow(rows, entries, n) ensures r'.rows[n] == rows[n] {
        NotFirst(rows, entries, n);
        if JidOf(last).Some? { SameIsRewritten(rows, r.rows, last, online); }
        StepTouches(r, last, online, clock(k), n);
      }
    }
  }

  lemma NothingIsSame(rows: seq<Agent>)
    ensures forall jid :: SameRow(rows, rows, jid)
  {
  }

  lemma SameAgain(a: seq<Agent>, b: seq<Agent>, c: seq<Agent>, jid: string)
    requires SameRow(a, b, jid) && SameRow(b, c, jid)
    ensures SameRow(a, c, jid)
  {
  }

  lemma NotFirst(rows: seq<Agent>, entries: seq<Option<LdapEntry>>, n: nat)
    requires entries != [] && !IsFirstRow(rows, entries, n)
    ensures var k := |entries| - 1;
      !IsFirstRow(rows, entries[..k], n) && (JidOf(entries[k]).Some? ==> Find(rows, JidOf(entries[k]).value) != Some(n))
  {
    hide JidOf;
    var k := |entries| - 1;
    assert JidOf(entries[k]).Some? ==> IsNamed(entries, JidOf(entries[k]).value);
    forall jid | IsNamed(entries[..k], jid) ensures IsNamed(entries, jid) {
      var i :| 0 <= i < k && JidOf(entries[..k][i]) == Some(jid);
      assert JidOf(entries[i]) == Some(jid);
    }
  }

  lemma StepTouches(r: Report, entry: Option<LdapEntry>, online: set<string>, now: int, n: nat)
    requires n < |r.rows| && (JidOf(entry).Some? ==> Find(r.rows, JidOf(entry).value) != Some(n))
    ensures n < |Step(r, entry, online, now).rows| && Step(r, entry, online, now).rows[n] == r.rows[n]
  {
  }

  lemma StepGrows(r: Report, entry: Option<LdapEntry>, online: set<string>, now: int)
    ensures |r.rows| <= |Step(r, entry, online, now).rows|
  {
  }

  lemma NotNamed(entries: seq<Option<LdapEntry>>, jid: string)
    requires entries != [] && !IsNamed(entries, jid)
    ensures var k := |entries| - 1; !IsNamed(entries[..k], jid) && JidOf(entries[k]) != Some(jid)
  {
    hide JidOf;
    var k := |entries| - 1;
    assert forall i | 0 <= i < k :: entries[..k][i] == entries[i];
  }

  /** The reports of a run name exactly the agents that had no row, respectively those rewritten. */
  lemma {:induction false} ReportsOfARun(rows: seq<Agent>, entries: seq<Option<LdapEntry>>, online: set<string>,
                                         clock: nat -> int)
    requires DistinctUids(entries)
    ensures forall jid :: jid in Run(rows, entries, online, clock).created <==>
      IsNamed(entries, jid) && Find(rows, jid).None?
    ensures forall jid :: jid in Run(rows, entries, online, clock).updated <==>
      exists i :: 0 <= i < |entries| && JidOf(entries[i]) == Some(jid) && IsRewritten(rows, entries[i], online)
  {
    hide IsTreated, IsRewritten, Step, JidOf, SameRow;
    if entries != [] {
      var k := |entries| - 1;
      var front, last := entries[..k], entries[k];
      ReportsOfARun(rows, front, online, clock);
      RowsAfterRun(rows, front, online, clock);
      var r := Run(rows, front, online, clock);
      assert entries == front + [last];
      if JidOf(last).Some? {
        assert !IsNamed(front, JidOf(last).value);
        StepTreats(r, last, online, clock(k));
        SameIsRewritten(rows, r.rows, last, online);
      } else {
        StepSkips(r, last, online, clock(k));
      }
      forall jid ensures IsNamed(entries, jid) <==> IsNamed(front, jid) || JidOf(last) == Some(jid) {
        if !IsNamed(entries, jid) { NotNamed(entries, jid); }
        if IsNamed(front, jid) { assert exists i :: 0 <= i < k && JidOf(entries[i]) == Some(jid); }
      }
    }
  }

  lemma SameIsRewritten(rows: seq<Agent>, after: seq<Agent>, entry: Option<LdapEntry>, online: set<string>)
    requires JidOf(entry).Some? && SameRow(rows, after, JidOf(entry).value)
    ensures IsRewritten(rows, entry, online) <==> IsRewritten(after, entry, online)
    ensures Find(rows, JidOf(entry).value) == Find(after, JidOf(entry).value)
  {
  }

  lemma StepSkips(r: Report, entry: Option<LdapEntry>, online: set<string>, now: int)
    requires JidOf(entry).None?
    ensures Step(r, entry, online, now) == r
  {
  }

  /** The agents of the entries that are online, in order. */
  function OnlineJids(entries: seq<Option<LdapEntry>>, online: set<string>): seq<string>
  {
    if entries == [] then [] else
    var k := |entries| - 1;
    var id := JidOf(entries[k]);
    OnlineJids(entries[..k], online) + if id.Some? && id.value in online then [id.value] else []
  }

  lemma {:induction false} SettledRun(rows: seq<Agent>, entries: seq<Option<LdapEntry>>, online: set<string>,
                                      clock: nat -> int)
    requires forall i | 0 <= i < |entries| :: Settled(rows, entries[i], online)
    requires DistinctUids(entries)
    ensures var r := Run(rows, entries, online, clock);
      && r.created == [] && r.updated == OnlineJids(entries, online)
      && forall x :: Settled(rows, x, online) ==> Settled(r.rows, x, online)
  {
    if entries != [] {
      var k := |entries| - 1;
      SettledRun(rows, entries[..k], online, clock);
      var r := Run(rows, entries[..k], online, clock);
      assert Settled(r.rows, entries[k], online);
      forall x | Settled(r.rows, x, online) ensures Settled(Step(r, entries[k], online, clock(k)).rows, x, online) {
        SettledStepKeeps(r, entries[k], online, clock(k), x);
      }
    }
  }

  /** On a settled agent a step changes the login and modification times alone. */
  lemma SettledStepKeeps(r: Report, entry: Option<LdapEntry>, online: set<string>, now: int, x: Option<LdapEntry>)
    requires Settled(r.rows, entry, online) && Settled(r.rows, x, online)
    ensures Settled(Step(r, entry, online, now).rows, x, online)
  {
    if JidOf(entry).Some? && JidOf(entry) == JidOf(x) {
      var jid := JidOf(x).value;
      var i := Find(r.rows, jid).value;
      var rows := Step(r, entry, online, now).rows;
      FindIs(rows, jid, i);
      DefaultsAreNotBlank(r.rows[i].ipAddresses, r.rows[i].macAddresses);
    } else {
      StepKeepsSettled(r, entry, online, now, x);
    }
  }

  /** With pairwise distinct trimmed uids a second run on the same inputs creates nothing and saves exactly the online
      agents. */
  lemma SecondRunSavesTheOnlineAgents(rows: seq<Agent>, entries: seq<Option<LdapEntry>>, online: set<string>,
                                      first: nat -> int, second: nat -> int)
    requires DistinctUids(entries)
    ensures var r := Run(Run(rows, entries, online, first).rows, entries, online, second);
      r.created == [] && r.updated == OnlineJids(entries, online)
  {
    RunSettles(rows, entries, online, first);
    SettledRun(Run(rows, entries, online, first).rows, entries, online, second);
  }
}
