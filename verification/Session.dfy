/** Session.cpp: the sorted members with their accelerator, and what observers are told. */
module Sessions {
  import opened Sorted
  import opened SortedStore
  import opened NetTypes
  import opened HostModel

  datatype SessionMember = SessionMember(id: nat, joinTick: nat)

  function Keys(rows: seq<SessionMember>): (k: seq<nat>)
    ensures |k| == |rows| && forall i :: 0 <= i < |rows| ==> k[i] == rows[i].id
  {
    seq(|rows|, i requires 0 <= i < |rows| => rows[i].id)
  }

  function Ticks(rows: seq<SessionMember>): (t: seq<nat>)
    ensures |t| == |rows| && forall i :: 0 <= i < |rows| ==> t[i] == rows[i].joinTick
  {
    seq(|rows|, i requires 0 <= i < |rows| => rows[i].joinTick)
  }

  datatype AdmitOutcome = Admitted | AtCapacity | AlreadyMember

  datatype SessionReport = SessionReport(
    sortedUnique: bool, acceleratorConsistent: bool, withinCapacity: bool, noZeroId: bool)
  {
    predicate IsHealthy() { sortedUnique && acceleratorConsistent && withinCapacity && noZeroId }
  }

  lemma MemberInserted(rows: seq<SessionMember>, at: nat, m: SessionMember)
    requires Ascending(Keys(rows)) && at <= |rows|
    requires forall i :: 0 <= i < at ==> Keys(rows)[i] < m.id
    requires forall i :: at <= i < |rows| ==> m.id < Keys(rows)[i]
    ensures var r := rows[..at] + [m] + rows[at..];
            && Ascending(Keys(r))
            && ToMap(Keys(r), Ticks(r)) == ToMap(Keys(rows), Ticks(rows))[m.id := m.joinTick]
  {
    var r := rows[..at] + [m] + rows[at..];
    assert Keys(r) == Keys(rows)[..at] + [m.id] + Keys(rows)[at..];
    assert Ticks(r) == Ticks(rows)[..at] + [m.joinTick] + Ticks(rows)[at..];
    InsertKeepsAscending(Keys(rows), at, m.id);
    ToMapInserted(Keys(rows), Ticks(rows), at, m.id, m.joinTick);
  }

  lemma MemberErased(rows: seq<SessionMember>, at: nat)
    requires Ascending(Keys(rows)) && at < |rows|
    ensures var r := rows[..at] + rows[at + 1..];
            && Ascending(Keys(r))
            && ToMap(Keys(r), Ticks(r)) == ToMap(Keys(rows), Ticks(rows)) - {rows[at].id}
  {
    var r := rows[..at] + rows[at + 1..];
    assert Keys(r) == Keys(rows)[..at] + Keys(rows)[at + 1..];
    assert Ticks(r) == Ticks(rows)[..at] + Ticks(rows)[at + 1..];
    EraseKeepsAscending(Keys(rows), at);
    ToMapErased(Keys(rows), Ticks(rows), at);
  }

  class Session {
    const maxMembers: nat
    var members: seq<SessionMember>
    var index: map<nat, nat>
    /** Every notification, in order; each observer hears exactly these. */
    var told: seq<Entry<Notice>>

    ghost predicate Valid()
      reads this
    {
      Indexed(Keys(members), Ticks(members), index) && |members| <= maxMembers
    }

    /** Join ticks by member id. */
    ghost function Members(): map<nat, nat>
      reads this
    {
      ToMap(Keys(members), Ticks(members))
    }

    constructor (maxMembers: nat)
      ensures Valid() && Members() == map[] && told == [] && this.maxMembers == maxMembers
    {
      this.maxMembers := maxMembers;
      members, index, told := [], map[], [];
    }

    method Admit(id: nat, joinTick: nat) returns (outcome: AdmitOutcome)
      requires Valid()
      modifies this
      ensures Valid()
      ensures outcome == AtCapacity <==> |old(Members())| >= maxMembers
      ensures outcome == AlreadyMember <==> |old(Members())| < maxMembers && id in old(Members())
      ensures outcome != Admitted ==> Members() == old(Members()) && told == old(told)
      ensures outcome == Admitted ==>
                && Members() == old(Members())[id := joinTick]
                && told == old(told) + [Entry(id, Joined(joinTick))]
    {
      hide IsIndex, Ascending, ToMap, Keys, Ticks;
      assert |Members()| == |members| by {
        ToMapListing(Keys(members), Ticks(members));
      }
      if |members| >= maxMembers {
        return AtCapacity;
      }
      var pos := LowerBound(Keys(members), id);
      LowerBoundDecides(Keys(members), pos, id);
      ToMapKeys(Keys(members), Ticks(members));
      if pos < |members| && members[pos].id == id {
        return AlreadyMember;
      }
      MemberInserted(members, pos, SessionMember(id, joinTick));
      members := members[..pos] + [SessionMember(id, joinTick)] + members[pos..];
      index := RebuildAccelerator(Keys(members));
      told := told + [Entry(id, Joined(joinTick))];
      outcome := Admitted;
    }

    method Remove(id: nat, reason: DisconnectReason)
      requires Valid()
      modifies this
      ensures Valid() && Members() == old(Members()) - {id}
      ensures id !in old(Members()) ==> told == old(told)
      ensures id in old(Members()) ==>
                told == old(told) + [Entry(id, Left(reason, MintToken(id, old(Members())[id])))]
    {
      IndexFinds(Keys(members), Ticks(members), index, id);
      if id !in index {
        assert Members() - {id} == Members();
        return;
      }
      var at := index[id];
      var member := members[at];
      MemberErased(members, at);
      members := members[..at] + members[at + 1..];
      index := RebuildAccelerator(Keys(members));
      told := told + [Entry(id, Left(reason, MintToken(member.id, member.joinTick)))];
    }

    method ValidateConsistency() returns (report: SessionReport)
      ensures report.sortedUnique <==> Ascending(Keys(members))
      ensures report.noZeroId <==> 0 !in Keys(members)
      ensures report.acceleratorConsistent <==>
                && |index| == |members|
                && (forall i :: 0 <= i < |members| ==> members[i].id in index && index[members[i].id] == i)
      ensures report.withinCapacity <==> |members| <= maxMembers
      ensures Valid() && 0 !in Keys(members) ==> report.IsHealthy()
    {
      var sorted, noZero := ScanOrder(Keys(members));
      var accelerator := |index| == |members|;
      if accelerator {
        for i := 0 to |members|
          invariant accelerator
          invariant forall j :: 0 <= j < i ==> members[j].id in index && index[members[j].id] == j
        {
          if members[i].id !in index || index[members[i].id] != i {
            accelerator := false;
            break;
          }
        }
      }
      report := SessionReport(sorted, accelerator, |members| <= maxMembers, noZero);
      assert Valid() ==> forall i :: 0 <= i < |members| ==> Keys(members)[i] == members[i].id;
    }
  }
}
