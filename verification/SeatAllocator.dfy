/**
 The seat search of `handleSeatAccept` in `internal/signaling/client.go` and the seat map of `internal/models/room.go`.
 */
module SeatAllocator {

  // ---------- fmt.Sprintf("%d", n) ----------

  function Digit(d: nat): char
    requires d < 10
  {
    '0' + d as char
  }

  function Decimal(n: nat): string {
    if n < 10 then [Digit(n)] else Decimal(n / 10) + [Digit(n % 10)]
  }

  lemma DigitInjective(a: nat, b: nat)
    requires a < 10 && b < 10 && Digit(a) == Digit(b)
    ensures a == b
  {
  }

  lemma {:induction false} DecimalNotEmpty(n: nat)
    ensures |Decimal(n)| >= 1 && (n >= 10 ==> |Decimal(n)| >= 2)
  {
    if n >= 10 {
      DecimalNotEmpty(n / 10);
    }
  }

  /** The number a string of decimal digits stands for. */
  function Value(s: string): int {
    if s == "" then 0 else 10 * Value(s[..|s| - 1]) + (s[|s| - 1] as int - '0' as int)
  }

  /** The key is the seat number in decimal digits, without leading zeros. */
  lemma {:induction false} DecimalReadsBack(n: nat)
    ensures Value(Decimal(n)) == n
    ensures forall i :: 0 <= i < |Decimal(n)| ==> '0' <= Decimal(n)[i] <= '9'
    ensures n > 0 ==> Decimal(n)[0] != '0'
  {
    hide Digit;
    if n >= 10 {
      DecimalReadsBack(n / 10);
      DecimalNotEmpty(n / 10);
      DigitReads(n % 10);
      var front := Decimal(n / 10);
      assert Decimal(n)[..|front|] == front;
    } else {
      DigitReads(n);
      assert Decimal(n)[..0] == "";
    }
  }

  lemma DigitReads(d: nat)
    requires d < 10
    ensures Digit(d) as int - '0' as int == d && '0' <= Digit(d) <= '9'
  {
  }

  /** Different seats have different keys. */
  lemma {:induction false} DecimalInjective(a: nat, b: nat)
    requires Decimal(a) == Decimal(b)
    ensures a == b
    decreases a
  {
    hide Digit;
    DecimalNotEmpty(a);
    DecimalNotEmpty(b);
    var s := Decimal(a);
    if a >= 10 {
      assert s == Decimal(a / 10) + [Digit(a % 10)] == Decimal(b / 10) + [Digit(b % 10)];
      assert s[..|s| - 1] == Decimal(a / 10) == Decimal(b / 10);
      assert s[|s| - 1] == Digit(a % 10) == Digit(b % 10);
      DigitInjective(a % 10, b % 10);
      DecimalInjective(a / 10, b / 10);
    } else {
      assert s[0] == Digit(a) == Digit(b);
      DigitInjective(a, b);
    }
  }

  // ---------- The search ----------

  type Seats = map<string, string>

  ghost predicate Taken(seats: Seats, i: nat) { Decimal(i) in seats }

  /** Seat i is the first free one from 1 on. */
  ghost predicate FirstFree(seats: Seats, i: nat) {
    1 <= i && !Taken(seats, i) && forall j :: 1 <= j < i ==> Taken(seats, j)
  }

  ghost function Keys(n: nat): set<string> { set j | 1 <= j <= n :: Decimal(j) }

  lemma {:induction false} KeysCount(n: nat)
    ensures |Keys(n)| == n
  {
    if n == 0 {
      assert Keys(0) == {};
    } else {
      KeysCount(n - 1);
      assert Keys(n) == Keys(n - 1) + {Decimal(n)};
      forall j | 1 <= j < n
        ensures Decimal(j) != Decimal(n)
      {
        if Decimal(j) == Decimal(n) {
          DecimalInjective(j, n);
        }
      }
    }
  }

  lemma {:induction false} SubsetCount(a: set<string>, b: set<string>)
    requires a <= b
    ensures |a| <= |b|
    decreases b
  {
    if x :| x in b {
      SubsetCount(a - {x}, b - {x});
    }
  }

  /** Pigeonhole: n occupied seats in a row need n entries in the map. */
  lemma OccupiedBound(seats: Seats, n: nat)
    requires forall j :: 1 <= j <= n ==> Taken(seats, j)
    ensures n <= |seats|
  {
    KeysCount(n);
    forall k | k in Keys(n)
      ensures k in seats.Keys
    {
      var j :| 1 <= j <= n && k == Decimal(j);
      assert Taken(seats, j);
    }
    SubsetCount(Keys(n), seats.Keys);
  }

  /** The empty key stands for "no seat". Without a limit (maxSeats <= 0) the loop ends within |seats| + 1 probes. */
  method FindSeat(seats: Seats, maxSeats: int) returns (assignedSeat: string)
    ensures assignedSeat == "" <==> maxSeats > 0 && forall j :: 1 <= j <= maxSeats ==> Taken(seats, j)
    ensures assignedSeat != "" ==>
              exists i: nat :: FirstFree(seats, i) && assignedSeat == Decimal(i) && i <= |seats| + 1
                          && (maxSeats > 0 ==> i <= maxSeats)
  {
    assignedSeat := "";
    if maxSeats > 0 {
      for i := 1 to maxSeats + 1
        invariant assignedSeat == "" && forall j :: 1 <= j < i ==> Taken(seats, j)
      {
        var seatKey := Decimal(i);
        if seatKey !in seats {
          OccupiedBound(seats, i - 1);
          DecimalNotEmpty(i);
          assert !Taken(seats, i);
          assert FirstFree(seats, i);
          return seatKey;
        }
        assert Taken(seats, i);
      }
    } else {
      var i := 1;
      while true
        invariant 1 <= i <= |seats| + 1
        invariant forall j :: 1 <= j < i ==> Taken(seats, j)
        decreases |seats| + 1 - i
      {
        var seatKey := Decimal(i);
        if seatKey !in seats {
          DecimalNotEmpty(i);
          assert !Taken(seats, i);
          assert FirstFree(seats, i);
          return seatKey;
        }
        assert Taken(seats, i);
        OccupiedBound(seats, i);
        i := i + 1;
      }
    }
  }

  // ---------- The room's seat map ----------

  class Room {
    var activeSeats: Seats

    constructor ()
      ensures activeSeats == map[]
    {
      activeSeats := map[];
    }

    method SetActiveSeat(seatID: string, userID: string)
      modifies this
      ensures activeSeats == old(activeSeats)[seatID := userID]
    {
      activeSeats := activeSeats[seatID := userID];
    }

    /** Deletes entry after entry; the order does not matter. */
    method RemoveUserFromSeats(userID: string)
      modifies this
      ensures activeSeats == map k | k in old(activeSeats) && old(activeSeats)[k] != userID :: old(activeSeats)[k]
    {
      var todo := activeSeats.Keys;
      while todo != {}
        invariant todo <= old(activeSeats).Keys
        invariant forall k :: k in activeSeats <==>
                    k in old(activeSeats) && (k in todo || old(activeSeats)[k] != userID)
        invariant forall k :: k in activeSeats ==> activeSeats[k] == old(activeSeats)[k]
        decreases todo
      {
        var seat :| seat in todo;
        if activeSeats[seat] == userID {
          activeSeats := activeSeats - {seat};
        }
        todo := todo - {seat};
      }
    }

    /** The acceptance of a seat request, from the search to the assignment: with a limit it is refused exactly when
        seats 1..max are taken; otherwise the target user gets the least free seat and every occupant keeps theirs. */
    method AcceptSeat(targetUser: string, maxSeats: int) returns (accepted: bool)
      modifies this
      ensures !accepted <==> maxSeats > 0 && forall j :: 1 <= j <= maxSeats ==> Taken(old(activeSeats), j)
      ensures !accepted ==> activeSeats == old(activeSeats)
      ensures accepted ==>
                && (forall k :: k in old(activeSeats) ==> k in activeSeats && activeSeats[k] == old(activeSeats)[k])
                && exists i: nat :: FirstFree(old(activeSeats), i) && i <= |old(activeSeats)| + 1
                               && (maxSeats > 0 ==> i <= maxSeats)
                               && activeSeats == old(activeSeats)[Decimal(i) := targetUser]
    {
      var assignedSeat := FindSeat(activeSeats, maxSeats);
      if assignedSeat == "" { return false; }
      ghost var i: nat :| FirstFree(activeSeats, i) && assignedSeat == Decimal(i) && i <= |activeSeats| + 1
                     && (maxSeats > 0 ==> i <= maxSeats);
      SetActiveSeat(assignedSeat, targetUser);
      return true;
    }
  }
}
