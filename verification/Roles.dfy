/** The two things that decide who leads: the lease row of the database, and the role each
    backend believes it has. */
module Roles {
  import opened Prelude

  // ---- The lease row

  /** What one acquisition writes: the caller's clock, or one past the row, whichever is later. */
  function Stolen(row: nat, clock: nat): nat {
    if clock > row + 1 then clock else row + 1
  }

  /** The row of one instance in the leases table; `None` when it does not exist. */
  class LeaseTable {
    var row: Option<nat>
    var readOnly: bool

    constructor (row: Option<nat>, readOnly: bool)
      ensures this.row == row && this.readOnly == readOnly
    {
      this.row, this.readOnly := row, readOnly;
    }

    /** Steals the lease from whoever holds it. It fails only on a missing row, or on a
        read-only one that the caller does not accept. Every lease handed out is newer than
        every lease before it, so no two acquisitions get the same one. */
    method Acquire(clock: nat, allowReadOnly: bool) returns (lease: Option<nat>)
      modifies this`row
      ensures lease.None? <==> old(row).None? || (readOnly && !allowReadOnly)
      ensures lease.None? ==> row == old(row)
      ensures lease.Some? ==> row == lease && lease.value > old(row).value && lease.value >= clock
      ensures lease.Some? ==> lease.value == clock || lease.value == old(row).value + 1
      ensures lease.Some? ==> lease.value == Stolen(old(row).value, clock)
    {
      if row.None? || (readOnly && !allowReadOnly) {
        return None;
      }
      row := Some(if clock >= row.value + 1 then clock else row.value + 1);
      lease := row;
    }

    /** A lease, once acquired, is held until the row moves on. */
    method Held(lease: nat) returns (held: bool)
      ensures held <==> row == Some(lease)
    {
      held := row.Some? && row.value == lease;
    }
  }

  // ---- The role of one backend

  /** A connection to the database; `leaseTs` is the lease it was opened with, if the database
      has leases. */
  datatype Persistence = Persistence(leaseTs: Option<nat>)

  datatype Role =
    | Follower
    | Promoting(acquired: Option<Persistence>)
    | Leader(persistence: Persistence)

  datatype PromotionAttempt = PromotionStarted | AlreadyInProgress | AlreadyLeader

  datatype DemotionCheck = IsLeader | IsFollower | IsPromoting | LeaseChanged

  datatype RoleSnapshot = RoleSnapshot(name: string, isLeader: bool, leaseTs: Option<nat>)

  function LeaseOf(role: Role): Option<nat> {
    match role
    case Follower => None
    case Promoting(p) => if p.Some? then p.value.leaseTs else None
    case Leader(p) => p.leaseTs
  }

  function SnapshotOf(role: Role): RoleSnapshot {
    var name := if role.Follower? then "follower" else if role.Promoting? then "promoting" else "leader";
    RoleSnapshot(name, role.Leader?, LeaseOf(role))
  }

  function DemotionOf(role: Role, expected: Option<nat>): DemotionCheck {
    match role
    case Promoting(_) => IsPromoting
    case Follower => IsFollower
    case Leader(p) => if expected.Some? && p.leaseTs != expected then LeaseChanged else IsLeader
  }

  /** What moves a role: the steps of a promotion. */
  datatype RoleStep = Started | Granted(persistence: Persistence) | Promoted(persistence: Persistence) | GivenUp

  function RoleNext(role: Role, step: RoleStep): Role {
    match step
    case Started => if role.Follower? then Promoting(None) else role
    case Granted(p) => Promoting(Some(p))
    case Promoted(p) => Leader(p)
    case GivenUp => Follower
  }

  class RoleState {
    var role: Role

    constructor (rwPersistence: Option<Persistence>)
      ensures role == if rwPersistence.Some? then Leader(rwPersistence.value) else Follower
    {
      role := if rwPersistence.Some? then Leader(rwPersistence.value) else Follower;
    }

    method Snapshot() returns (s: RoleSnapshot)
      ensures s == SnapshotOf(role)
      ensures s.isLeader <==> role.Leader?
      ensures s.name == if role.Follower? then "follower" else if role.Promoting? then "promoting" else "leader"
      ensures role.Leader? ==> s.leaseTs == role.persistence.leaseTs
      ensures role.Promoting? && role.acquired.Some? ==> s.leaseTs == role.acquired.value.leaseTs
      ensures role == Promoting(None) || role.Follower? ==> s.leaseTs == None
    {
      match role
      case Follower => s := RoleSnapshot("follower", false, None);
      case Promoting(p) =>
        s := RoleSnapshot("promoting", false, if p.None? then None else p.value.leaseTs);
      case Leader(p) => s := RoleSnapshot("leader", true, p.leaseTs);
    }

    /** Only a follower starts a promotion. */
    method BeginPromotion() returns (attempt: PromotionAttempt)
      modifies this
      ensures old(role).Follower? ==> attempt == PromotionStarted && role == Promoting(None)
      ensures !old(role).Follower? ==> role == old(role)
      ensures role == RoleNext(old(role), Started)
      ensures old(role).Promoting? ==> attempt == AlreadyInProgress
      ensures old(role).Leader? ==> attempt == AlreadyLeader
    {
      match role {
        case Follower =>
        case Promoting(_) => return AlreadyInProgress;
        case Leader(_) => return AlreadyLeader;
      }
      role := Promoting(None);
      attempt := PromotionStarted;
    }

    method LeaseAcquired(p: Persistence)
      modifies this
      ensures role == RoleNext(old(role), Granted(p)) == Promoting(Some(p))
    {
      role := Promoting(Some(p));
    }

    method FinishPromotion(p: Persistence)
      modifies this
      ensures role == RoleNext(old(role), Promoted(p)) == Leader(p)
    {
      role := Leader(p);
    }

    method AbortPromotion()
      modifies this
      ensures role == RoleNext(old(role), GivenUp) == Follower
    {
      role := Follower;
    }

    /** A demotion that names a lease is accepted only by a leader holding that very lease. */
    method CheckDemotion(expected: Option<nat>) returns (check: DemotionCheck)
      ensures check == DemotionOf(role, expected)
      ensures check == IsFollower <==> role.Follower?
      ensures check == IsPromoting <==> role.Promoting?
      ensures check == IsLeader <==> role.Leader? && (expected.None? || role.persistence.leaseTs == expected)
      ensures check == LeaseChanged <==> role.Leader? && expected.Some? && role.persistence.leaseTs != expected
    {
      var persistence: Persistence;
      match role {
        case Leader(p) => persistence := p;
        case Promoting(_) => return IsPromoting;
        case Follower => return IsFollower;
      }
      if expected.Some? && persistence.leaseTs != expected {
        return LeaseChanged;
      }
      check := IsLeader;
    }
  }
}
