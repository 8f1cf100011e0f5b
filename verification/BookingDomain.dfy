/** Roles, bookings and half-open intervals. Instants are whole numbers. */
module BookingDomain {

  datatype Error = RoomNotFound | BookingNotFound | InvalidTimeRange | ScheduleConflict | Forbidden | StorageFailure

  datatype Result<+T> = Ok(value: T) | Err(error: Error)

  /** A role is a string; all strings but five are unknown. */
  datatype Role = StudentB | StudentM | StudentA | Teacher | Admin | Other(text: string)
  {
    function Rank(): nat {
      match this
      case StudentB => 1
      case StudentM => 2
      case StudentA => 3
      case Teacher => 4
      case Admin => 5
      case Other(_) => 0
    }

    predicate IsKnown() { Rank() > 0 }

    predicate CanCancelOther(other: Role) {
      if !IsKnown() || !other.IsKnown() then false
      else if this == Admin then true
      else Rank() > other.Rank()
    }
  }

  /** Who may cancel whose booking, as a relation: nobody but an admin can be cancelled by a peer,
      two roles below admin never have power over each other both ways, and power is inherited upwards. */
  lemma CancelPowerOrder(a: Role, b: Role, c: Role)
    ensures a.CanCancelOther(b) ==> a.IsKnown() && b.IsKnown()
    ensures a.CanCancelOther(b) && b.CanCancelOther(a) <==> a == Admin && b == Admin
    ensures a.CanCancelOther(b) && b.CanCancelOther(c) ==> a.CanCancelOther(c)
    ensures a.IsKnown() && b.IsKnown() && a != b ==> a.CanCancelOther(b) || b.CanCancelOther(a)
  {
  }

  /** The power to cancel, role by role. */
  lemma CancelPowerTable(a: Role, b: Role)
    ensures a.IsKnown() <==> a in {StudentB, StudentM, StudentA, Teacher, Admin}
    ensures a.CanCancelOther(b) <==>
            || (a == Admin && b in {StudentB, StudentM, StudentA, Teacher, Admin})
            || (a == Teacher && b in {StudentB, StudentM, StudentA})
            || (a == StudentA && b in {StudentB, StudentM})
            || (a == StudentM && b == StudentB)
  {
  }

  /** What the timetable parser adds to a row; all empty on a user's booking. */
  datatype Details = Details(subject: string, lessonType: string, teacher: string, groupNumbers: seq<string>,
                             week: string)

  const NO_DETAILS := Details("", "", "", [], "")

  datatype Room = Room(name: string, building: string, capacity: int)

  datatype Booking = Booking(roomId: int, userId: int, creatorRole: Role, start: int, end: int, details: Details)

  /** The identity under which the parser writes its rows. */
  predicate ByParser(b: Booking) { b.userId == 0 && b.creatorRole == Admin }

  predicate Overlaps(startA: int, endA: int, startB: int, endB: int) {
    startA < endB && startB < endA
  }

  predicate Covers(start: int, end: int, t: int) { start <= t < end }

  /** For proper ranges the service's test is the constraint's: the half-open ranges share an instant. */
  lemma OverlapsIsIntersection(startA: int, endA: int, startB: int, endB: int)
    requires startA < endA && startB < endB
    ensures Overlaps(startA, endA, startB, endB) <==>
            exists t :: Covers(startA, endA, t) && Covers(startB, endB, t)
  {
    if Overlaps(startA, endA, startB, endB) {
      var t := if startA < startB then startB else startA;
      assert Covers(startA, endA, t) && Covers(startB, endB, t);
    }
  }

  predicate Conflicts(b: Booking, roomId: int, start: int, end: int) {
    b.roomId == roomId && Overlaps(start, end, b.start, b.end)
  }
}
