/**
 The death report shown during the day (src/main.cpp, syncGameState).

 An empty list of last night's deaths reads "昨晚是平安夜。" ("last night was
 peaceful"). Otherwise the report reads "昨晚死亡的玩家是：" followed by each
 dead player's seat number and "號", joined by "、", and closed with "。".
 A device without a seat reads as seat 0, as the source's map lookup gives.
 */
module DeathNote {
  import opened StringOrder

  const SafeNight: string := "昨晚是平安夜。"
  const ReportHead: string := "昨晚死亡的玩家是："
  const SeatSuffix: string := "號"
  const Separator: char := '、'
  const FullStop: string := "。"

  function SeatOf(seats: map<Id, nat>, id: Id): nat
  {
    if id in seats then seats[id] else 0
  }

  function DigitChar(d: nat): char
    requires d < 10
  {
    "0123456789"[d]
  }

  /** Decimal text of a number, as appending an integer to a string produces. */
  function Digits(n: nat): (r: string)
    ensures |r| >= 1
    decreases n
  {
    if n < 10 then [DigitChar(n)] else Digits(n / 10) + [DigitChar(n % 10)]
  }

  function DigitValue(c: char): nat
  {
    if '0' <= c <= '9' then (c as int - '0' as int) as nat else 0
  }

  /** Reads decimal text back into a number. */
  function ValueOf(s: string): nat
  {
    if s == [] then 0 else 10 * ValueOf(s[..|s| - 1]) + DigitValue(s[|s| - 1])
  }

  predicate IsDigit(c: char)
  {
    '0' <= c <= '9'
  }

  lemma {:induction false} DigitsRoundTrip(n: nat)
    ensures ValueOf(Digits(n)) == n
    ensures forall i :: 0 <= i < |Digits(n)| ==> IsDigit(Digits(n)[i])
    decreases n
  {
    if n >= 10 {
      DigitsRoundTrip(n / 10);
      var d := Digits(n);
      assert d[..|d| - 1] == Digits(n / 10);
    }
  }

  /** One entry of the report: the seat number and its counter word. */
  function Entry(seat: nat): string
  {
    Digits(seat) + SeatSuffix
  }

  /** The entries of `dead`, joined by the separator. */
  function Listing(dead: seq<Id>, seats: map<Id, nat>): string
  {
    if |dead| == 0 then ""
    else if |dead| == 1 then Entry(SeatOf(seats, dead[0]))
    else Listing(dead[..|dead| - 1], seats) + [Separator] + Entry(SeatOf(seats, dead[|dead| - 1]))
  }

  /** The report text for last night's deaths. */
  function Report(dead: seq<Id>, seats: map<Id, nat>): string
  {
    if dead == [] then SafeNight else ReportHead + Listing(dead, seats) + FullStop
  }

  /** How many times `c` occurs in `s`. */
  function Occurrences(s: string, c: char): nat
  {
    if s == [] then 0 else Occurrences(s[..|s| - 1], c) + (if s[|s| - 1] == c then 1 else 0)
  }

  lemma {:induction false} OccurrencesAppend(a: string, b: string, c: char)
    ensures Occurrences(a + b, c) == Occurrences(a, c) + Occurrences(b, c)
    decreases |b|
  {
    if b != [] {
      assert (a + b)[..|a + b| - 1] == a + b[..|b| - 1];
      OccurrencesAppend(a, b[..|b| - 1], c);
    } else {
      assert a + b == a;
    }
  }

  lemma {:induction false} OccurrencesAbsent(s: string, c: char)
    requires c !in s
    ensures Occurrences(s, c) == 0
  {
    if s != [] {
      assert c !in s[..|s| - 1];
      OccurrencesAbsent(s[..|s| - 1], c);
    }
  }

  lemma EntryHasNoSeparator(seat: nat)
    ensures Occurrences(Entry(seat), Separator) == 0
  {
    DigitsRoundTrip(seat);
    assert Separator !in Entry(seat);
    OccurrencesAbsent(Entry(seat), Separator);
  }

  lemma {:induction false} ListingSeparators(dead: seq<Id>, seats: map<Id, nat>)
    requires dead != []
    ensures Occurrences(Listing(dead, seats), Separator) == |dead| - 1
  {
    var last := Entry(SeatOf(seats, dead[|dead| - 1]));
    EntryHasNoSeparator(SeatOf(seats, dead[|dead| - 1]));
    if |dead| > 1 {
      var init := Listing(dead[..|dead| - 1], seats);
      ListingSeparators(dead[..|dead| - 1], seats);
      OccurrencesAppend(init + [Separator], last, Separator);
      OccurrencesAppend(init, [Separator], Separator);
      assert Occurrences([Separator], Separator) == 1 by {
        assert [Separator][..0] == [];
      }
    }
  }

  /** A report of `k` deaths holds exactly `k - 1` separators: one between each two seats. */
  lemma ReportSeparators(dead: seq<Id>, seats: map<Id, nat>)
    requires dead != []
    ensures Occurrences(Report(dead, seats), Separator) == |dead| - 1
  {
    var listing := Listing(dead, seats);
    ListingSeparators(dead, seats);
    OccurrencesAppend(ReportHead + listing, FullStop, Separator);
    OccurrencesAppend(ReportHead, listing, Separator);
    OccurrencesAbsent(ReportHead, Separator);
    OccurrencesAbsent(FullStop, Separator);
  }

  /** The peaceful-night text appears exactly when nobody died last night. */
  lemma SafeNightIffNoDeaths(dead: seq<Id>, seats: map<Id, nat>)
    ensures Report(dead, seats) == SafeNight <==> dead == []
  {
    if dead != [] {
      assert Report(dead, seats)[2] == ReportHead[2] != SafeNight[2];
    }
  }

  /** The text the report loop has appended after `n` turns: each entry, followed by a separator unless it is the last death. */
  function Pieces(dead: seq<Id>, seats: map<Id, nat>, n: nat): string
    requires n <= |dead|
  {
    if n == 0 then ""
    else Pieces(dead, seats, n - 1) + Entry(SeatOf(seats, dead[n - 1])) + (if n < |dead| then [Separator] else [])
  }

  /** After `n` turns the loop has written the listing of the first `n` deaths, and a separator if more follow. */
  lemma {:induction false} PiecesAreListing(dead: seq<Id>, seats: map<Id, nat>, n: nat)
    requires 0 < n <= |dead|
    ensures Pieces(dead, seats, n) == Listing(dead[..n], seats) + (if n < |dead| then [Separator] else [])
  {
    if n > 1 {
      PiecesAreListing(dead, seats, n - 1);
      assert dead[..n][..n - 1] == dead[..n - 1];
    }
  }

  lemma AppendAssociates(a: string, b: string, c: string)
    ensures a + b + c == a + (b + c)
  {
  }

  /** The report loop of syncGameState. */
  method BuildReport(dead: seq<Id>, seats: map<Id, nat>) returns (note: string)
    ensures note == Report(dead, seats)
  {
    if |dead| == 0 {
      note := SafeNight;
      return;
    }
    note := ReportHead;
    var i := 0;
    while i < |dead|
      invariant 0 <= i <= |dead|
      invariant note == ReportHead + Pieces(dead, seats, i)
    {
      ghost var written := Pieces(dead, seats, i);
      var entry := Entry(SeatOf(seats, dead[i]));
      AppendAssociates(ReportHead, written, entry);
      note := note + entry;
      written := written + entry;
      if i < |dead| - 1 {
        AppendAssociates(ReportHead, written, [Separator]);
        note := note + [Separator];
        written := written + [Separator];
      }
      assert written == Pieces(dead, seats, i + 1);
      i := i + 1;
    }
    PiecesAreListing(dead, seats, |dead|);
    assert dead[..|dead|] == dead;
    note := note + FullStop;
  }
}
