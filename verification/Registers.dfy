/** Discriminated results: one digit per qubit and shot, packed into one integer per
    shot. */
module Registers {
  import opened Wrappers

  // --- rows of digits as integers ---

  datatype ByteOrder = BigEndian | LittleEndian

  function Pow(base: nat, n: nat): nat {
    if n == 0 then 1 else base * Pow(base, n - 1)
  }

  function Reversed(row: seq<int>): seq<int> {
    if row == [] then [] else Reversed(row[1..]) + [row[0]]
  }

  /** The product of a row with the descending powers of the base. */
  function Dot(row: seq<int>, base: nat): int {
    if row == [] then 0 else row[0] * Pow(base, |row| - 1) + Dot(row[1..], base)
  }

  function Decimal(row: seq<int>, base: nat, order: ByteOrder): int {
    Dot(if order.LittleEndian? then Reversed(row) else row, base)
  }

  predicate AreDigits(row: seq<int>, base: nat) {
    forall digit :: digit in row ==> 0 <= digit < base
  }

  /** The digit of a number at a position, from the least significant one. */
  function DigitAt(value: int, base: nat, position: nat): int
    requires base > 0
    decreases position
  {
    if position == 0 then value % base else DigitAt(value / base, base, position - 1)
  }

  lemma {:induction false} DotSnoc(row: seq<int>, digit: int, base: nat)
    ensures Dot(row + [digit], base) == base * Dot(row, base) + digit
  {
    if row == [] {
      assert row + [digit] == [digit];
      assert [digit][1..] == [];
    } else {
      var all := row + [digit];
      assert all[1..] == row[1..] + [digit];
      DotSnoc(row[1..], digit, base);
      assert Pow(base, |row|) == base * Pow(base, |row| - 1);
      Regroup(row[0], Pow(base, |row| - 1), Dot(row[1..], base), digit, base);
    }
  }

  lemma Regroup(first: int, power: int, rest: int, digit: int, base: int)
    ensures first * (base * power) + (base * rest + digit) == base * (first * power + rest) + digit
  {
    assert first * (base * power) == base * (first * power);
    assert base * (first * power + rest) == base * (first * power) + base * rest;
  }

  /** Little-endian: the first digit counts least. */
  lemma LittleEndianCons(row: seq<int>, base: nat)
    requires row != []
    ensures Decimal(row, base, LittleEndian) == row[0] + base * Decimal(row[1..], base, LittleEndian)
  {
    DotSnoc(Reversed(row[1..]), row[0], base);
  }

  lemma DigitAndRest(digit: int, rest: int, base: int)
    requires 0 <= digit < base
    ensures (digit + base * rest) % base == digit && (digit + base * rest) / base == rest
  {
    var value := digit + base * rest;
    assert value == base * (value / base) + value % base;
    Scaled(base, rest - value / base);
    assert base * (rest - value / base) == base * rest - base * (value / base);
  }

  lemma Scaled(base: int, k: int)
    requires base > 0
    ensures k >= 1 ==> base * k >= base
    ensures k <= -1 ==> base * k <= -base
  {
  }

  /** The number has the digits of the row at their positions, and no other. */
  lemma {:induction false} DigitsAreKept(row: seq<int>, base: nat, position: nat)
    requires base > 1 && AreDigits(row, base)
    ensures 0 <= Decimal(row, base, LittleEndian) < Pow(base, |row|)
    ensures DigitAt(Decimal(row, base, LittleEndian), base, position) == if position < |row| then row[position] else 0
    decreases |row|, position
  {
    if row != [] {
      var digit, rest := row[0], Decimal(row[1..], base, LittleEndian);
      LittleEndianCons(row, base);
      assert digit in row;
      assert AreDigits(row[1..], base) by {
        assert forall d :: d in row[1..] ==> d in row;
      }
      DigitsAreKept(row[1..], base, if position == 0 then 0 else position - 1);
      DigitAndRest(digit, rest, base);
      Bounded(digit, rest, base, Pow(base, |row| - 1));
    } else if position > 0 {
      DigitsAreKept(row, base, position - 1);
    }
  }

  lemma Bounded(digit: int, rest: int, base: int, power: int)
    requires 0 <= digit < base && 0 <= rest < power
    ensures 0 <= digit + base * rest < base * power
  {
    assert base * (rest + 1) <= base * power;
    assert base * (rest + 1) == base * rest + base;
    assert base * rest >= 0;
  }

  /** Different registers of the same width give different integers. */
  lemma PackingIsInjective(a: seq<int>, b: seq<int>, base: nat)
    requires base > 1 && AreDigits(a, base) && AreDigits(b, base) && |a| == |b|
    requires Decimal(a, base, LittleEndian) == Decimal(b, base, LittleEndian)
    ensures a == b
  {
    forall i | 0 <= i < |a|
      ensures a[i] == b[i]
    {
      DigitsAreKept(a, base, i);
      DigitsAreKept(b, base, i);
    }
  }

  lemma {:induction false} ReversedTwice(row: seq<int>)
    ensures Reversed(Reversed(row)) == row
  {
    if row != [] {
      ReversedTwice(row[1..]);
      ReversedSnoc(Reversed(row[1..]), row[0]);
    }
  }

  lemma {:induction false} ReversedSnoc(row: seq<int>, digit: int)
    ensures Reversed(row + [digit]) == [digit] + Reversed(row)
  {
    if row == [] {
      assert row + [digit] == [digit];
    } else {
      assert (row + [digit])[1..] == row[1..] + [digit];
      ReversedSnoc(row[1..], digit);
    }
  }

  /** Big-endian is little-endian of the reversed row. */
  lemma BigEndianIsReversed(row: seq<int>, base: nat)
    ensures Decimal(row, base, BigEndian) == Decimal(Reversed(row), base, LittleEndian)
  {
    ReversedTwice(row);
  }

  // --- filling the register ---

  /** What a discriminator returns: one digit for all shots, or one for each. */
  datatype Digits = Same(digit: int) | PerShot(digits: seq<int>) {
    function At(shot: nat): int
      requires PerShot? ==> shot < |digits|
    {
      if Same? then digit else digits[shot]
    }

    predicate Lasts(shots: nat) {
      PerShot? ==> |digits| == shots
    }
  }

  /** An acquisition channel, named by its qubit, with the number of measurements in
      each repetition and what the discriminator makes of the first. */
  datatype Channel = Channel(qubit: int, measurements: nat, digits: Digits)

  datatype PackError = ManyMeasurements | UnknownQubit | NoSuchSlot | WrongLength | UnmappedChannels

  /** Qubits are numbered in the order of their ids. */
  function SdkQubits(ids: seq<int>): map<int, nat> {
    if ids == [] then map[] else SdkQubits(ids[..|ids| - 1])[ids[|ids| - 1] := |ids| - 1]
  }

  datatype Experiment = Experiment(sdk: map<int, nat>, qToC: map<int, int>, width: nat, shots: nat, averaged: bool)

  /** The rows written so far, and the channels that have no slot. */
  datatype Filled = Filled(rows: map<int, Digits>, unmapped: seq<nat>)

  /** A negative slot counts from the end. */
  function RowOf(slot: int, width: nat): Option<int> {
    if 0 <= slot < width then Some(slot)
    else if 0 <= slot + width < width then Some(slot + width)
    else None
  }

  function FillOne(e: Experiment, filled: Filled, channel: Channel): Result<Filled, PackError> {
    if channel.measurements != 1 && !e.averaged then Err(ManyMeasurements)
    else if channel.qubit !in e.sdk then Err(UnknownQubit)
    else
      var qubit := e.sdk[channel.qubit];
      if qubit !in e.qToC then Ok(filled.(unmapped := filled.unmapped + [qubit]))
      else
        var row := RowOf(e.qToC[qubit], e.width);
        if channel.digits.PerShot? && |channel.digits.digits| != e.shots then Err(WrongLength)
        else if row.None? then Err(NoSuchSlot)
        else Ok(filled.(rows := filled.rows[row.value := channel.digits]))
  }

  function Fill(e: Experiment, channels: seq<Channel>): Result<Filled, PackError> {
    if channels == [] then Ok(Filled(map[], []))
    else
      var before := Fill(e, channels[..|channels| - 1]);
      if before.Err? then before else FillOne(e, before.value, channels[|channels| - 1])
  }

  function DigitIn(e: Experiment, rows: map<int, Digits>, row: int, shot: nat): int
    requires shot < e.shots && (row in rows ==> rows[row].Lasts(e.shots))
  {
    if row in rows then rows[row].At(shot) else 0
  }

  /** The digits of a shot, slot after slot; zero where nothing was written. */
  function RowAt(e: Experiment, rows: map<int, Digits>, shot: nat): seq<int>
    requires shot < e.shots && forall c :: c in rows ==> rows[c].Lasts(e.shots)
  {
    seq(e.width, c requires 0 <= c < e.width => DigitIn(e, rows, c, shot))
  }

  lemma {:induction false} FilledLasts(e: Experiment, channels: seq<Channel>)
    ensures Fill(e, channels).Ok? ==> forall c :: c in Fill(e, channels).value.rows ==>
              0 <= c < e.width && Fill(e, channels).value.rows[c].Lasts(e.shots)
  {
    if channels != [] {
      FilledLasts(e, channels[..|channels| - 1]);
    }
  }

  // --- which results can be packed ---

  predicate HasSlot(e: Experiment, channel: Channel) {
    channel.qubit in e.sdk && e.sdk[channel.qubit] in e.qToC
  }

  function SlotOf(e: Experiment, channel: Channel): int
    requires HasSlot(e, channel)
  {
    e.qToC[e.sdk[channel.qubit]]
  }

  /** What is wrong with a channel, other than that it has no slot. */
  function Fault(e: Experiment, channel: Channel): Option<PackError> {
    if !(channel.measurements == 1 || e.averaged) then Some(ManyMeasurements)
    else if channel.qubit !in e.sdk then Some(UnknownQubit)
    else if HasSlot(e, channel) && channel.digits.PerShot? && |channel.digits.digits| != e.shots then Some(WrongLength)
    else if HasSlot(e, channel) && !(-(e.width as int) <= SlotOf(e, channel) < e.width) then Some(NoSuchSlot)
    else None
  }

  /** One measurement, or an average; a known qubit with a slot in the register, counted
      from either end; one digit, or as many as there are shots. */
  predicate IsSound(e: Experiment, channel: Channel) {
    && (channel.measurements == 1 || e.averaged)
    && HasSlot(e, channel) && -(e.width as int) <= SlotOf(e, channel) < e.width
    && (channel.digits.PerShot? ==> |channel.digits.digits| == e.shots)
  }

  /** The register is filled exactly if no channel has a fault; else the first one that
      has tells which. */
  lemma {:induction false} FilledExactly(e: Experiment, channels: seq<Channel>)
    ensures Fill(e, channels).Ok? <==> forall i :: 0 <= i < |channels| ==> Fault(e, channels[i]).None?
    ensures Fill(e, channels).Ok? ==>
              (Fill(e, channels).value.unmapped == [] <==> forall i :: 0 <= i < |channels| ==> HasSlot(e, channels[i]))
    ensures forall i :: 0 <= i < |channels| && Fault(e, channels[i]).Some? &&
                        (forall j :: 0 <= j < i ==> Fault(e, channels[j]).None?) ==>
              Fill(e, channels) == Err(Fault(e, channels[i]).value)
  {
    hide Fault, HasSlot;
    if channels != [] {
      hide Fill;
      var front, last := channels[..|channels| - 1], channels[|channels| - 1];
      FilledExactly(e, front);
      assert channels == front + [last];
      FilledOne(e, front, last);
    }
  }

  lemma FilledOne(e: Experiment, front: seq<Channel>, last: Channel)
    ensures var f, g := Fill(e, front), Fill(e, front + [last]);
            && (f.Err? ==> g == f)
            && (f.Ok? ==>
                  && (Fault(e, last).Some? ==> g == Err(Fault(e, last).value))
                  && (Fault(e, last).None? ==>
                        && g.Ok?
                        && (g.value.unmapped == [] <==> f.value.unmapped == [] && HasSlot(e, last))))
  {
    assert (front + [last])[..|front|] == front;
  }

  lemma SoundMeans(e: Experiment, channel: Channel)
    ensures IsSound(e, channel) <==> Fault(e, channel).None? && HasSlot(e, channel)
  {
  }

  /** The register has what is written to its rows, and zero elsewhere. */
  ghost predicate Holds(e: Experiment, register: array2<int>, rows: map<int, Digits>)
    reads register
  {
    && register.Length0 == e.width && register.Length1 == e.shots
    && (forall c :: c in rows ==> 0 <= c < e.width && rows[c].Lasts(e.shots))
    && (forall c, shot :: 0 <= c < e.width && 0 <= shot < e.shots ==> register[c, shot] == DigitIn(e, rows, c, shot))
  }

  lemma NothingIsHeld(e: Experiment, register: array2<int>)
    requires register.Length0 == e.width && register.Length1 == e.shots
    requires forall c, shot :: 0 <= c < e.width && 0 <= shot < e.shots ==> register[c, shot] == 0
    ensures Holds(e, register, map[])
  {
  }

  /** Writes the digits of the channels to their rows of the register. */
  method FillRegister(e: Experiment, channels: seq<Channel>, register: array2<int>)
    returns (unmapped: Result<seq<nat>, PackError>)
    requires Holds(e, register, map[])
    modifies register
    ensures unmapped == if Fill(e, channels).Ok? then Ok(Fill(e, channels).value.unmapped)
                        else Err(Fill(e, channels).error)
    ensures unmapped.Ok? ==>
              && (forall c :: c in Fill(e, channels).value.rows ==> Fill(e, channels).value.rows[c].Lasts(e.shots))
              && Holds(e, register, Fill(e, channels).value.rows)
  {
    var missing: seq<nat> := [];
    ghost var rows: map<int, Digits> := map[];
    for i := 0 to |channels|
      invariant Fill(e, channels[..i]) == Ok(Filled(rows, missing))
      invariant Holds(e, register, rows)
    {
      var channel := channels[i];
      assert channels[..i + 1][..i] == channels[..i];
      if channel.measurements != 1 && !e.averaged {
        FillFails(e, channels, i);
        return Err(ManyMeasurements);
      }
      if channel.qubit !in e.sdk {
        FillFails(e, channels, i);
        return Err(UnknownQubit);
      }
      var qubit := e.sdk[channel.qubit];
      if qubit !in e.qToC {
        missing := missing + [qubit];
        continue;
      }
      var row := RowOf(e.qToC[qubit], e.width);
      if channel.digits.PerShot? && |channel.digits.digits| != e.shots {
        FillFails(e, channels, i);
        return Err(WrongLength);
      }
      if row.None? {
        FillFails(e, channels, i);
        return Err(NoSuchSlot);
      }
      forall shot | 0 <= shot < e.shots {
        register[row.value, shot] := channel.digits.At(shot);
      }
      rows := rows[row.value := channel.digits];
    }
    assert channels[..|channels|] == channels;
    return Ok(missing);
  }

  /** What the register holds for a shot. */
  function Column(register: array2<int>, shot: nat): seq<int>
    requires shot < register.Length1
    reads register
  {
    seq(register.Length0, c requires 0 <= c < register.Length0 reads register => register[c, shot])
  }

  lemma ColumnIsRow(e: Experiment, register: array2<int>, rows: map<int, Digits>, shot: nat)
    requires Holds(e, register, rows) && shot < e.shots
    ensures Column(register, shot) == RowAt(e, rows, shot)
  {
  }

  /** Packs what the register holds, shot after shot. */
  method PackShots(e: Experiment, register: array2<int>, ghost rows: map<int, Digits>, base: nat, order: ByteOrder)
    returns (integers: seq<int>)
    requires Holds(e, register, rows)
    ensures |integers| == e.shots
    ensures forall shot :: 0 <= shot < e.shots ==> integers[shot] == Decimal(RowAt(e, rows, shot), base, order)
  {
    hide Decimal, Column, RowAt;
    integers := [];
    for shot := 0 to e.shots
      invariant |integers| == shot
      invariant forall s :: 0 <= s < shot ==> integers[s] == Decimal(RowAt(e, rows, s), base, order)
    {
      ColumnIsRow(e, register, rows, shot);
      integers := integers + [Decimal(Column(register, shot), base, order)];
    }
  }

  /** The integers of all the shots. */
  method DiscriminateResults(e: Experiment, channels: seq<Channel>, base: nat, order: ByteOrder)
    returns (values: Result<seq<int>, PackError>)
    ensures values.Ok? <==> forall i :: 0 <= i < |channels| ==> IsSound(e, channels[i])
    ensures forall i :: 0 <= i < |channels| && Fault(e, channels[i]).Some? &&
                        (forall j :: 0 <= j < i ==> Fault(e, channels[j]).None?) ==>
              values == Err(Fault(e, channels[i]).value)
    ensures (forall i :: 0 <= i < |channels| ==> Fault(e, channels[i]).None?) &&
            (exists i :: 0 <= i < |channels| && !HasSlot(e, channels[i])) ==>
              values == Err(UnmappedChannels)
    ensures values.Ok? ==> base > 1 ==> Carries(values.value, e, channels, base, order)
    ensures values.Ok? ==> |values.value| == e.shots
    ensures values.Ok? ==>
              Fill(e, channels).Ok? &&
              (forall c :: c in Fill(e, channels).value.rows ==> Fill(e, channels).value.rows[c].Lasts(e.shots)) &&
              forall shot :: 0 <= shot < e.shots ==>
                values.value[shot] == Decimal(RowAt(e, Fill(e, channels).value.rows, shot), base, order)
  {
    hide Fault, IsSound, HasSlot, Fill, Carries, Decimal, RowAt, Holds;
    PackedExactly(e, channels);
    var register := new int[e.width, e.shots]((_, _) => 0);
    NothingIsHeld(e, register);
    var unmapped := FillRegister(e, channels, register);
    if unmapped.Err? {
      return Err(unmapped.error);
    }
    if unmapped.value != [] {
      return Err(UnmappedChannels);
    }
    var integers := PackShots(e, register, Fill(e, channels).value.rows, base, order);
    values := Ok(integers);
    if base > 1 {
      IntegersCarry(e, channels, base, order, integers);
    }
  }

  lemma PackedExactly(e: Experiment, channels: seq<Channel>)
    ensures Fill(e, channels).Ok? && Fill(e, channels).value.unmapped == [] <==>
            forall i :: 0 <= i < |channels| ==> IsSound(e, channels[i])
    ensures forall i :: 0 <= i < |channels| && Fault(e, channels[i]).Some? &&
                        (forall j :: 0 <= j < i ==> Fault(e, channels[j]).None?) ==>
              Fill(e, channels) == Err(Fault(e, channels[i]).value)
    ensures (forall i :: 0 <= i < |channels| ==> Fault(e, channels[i]).None?) &&
            (exists i :: 0 <= i < |channels| && !HasSlot(e, channels[i])) ==>
              Fill(e, channels).Ok? && Fill(e, channels).value.unmapped != []
  {
    hide Fault, IsSound, HasSlot, Fill;
    FilledExactly(e, channels);
    forall i | 0 <= i < |channels|
      ensures IsSound(e, channels[i]) <==> Fault(e, channels[i]).None? && HasSlot(e, channels[i])
    {
      SoundMeans(e, channels[i]);
    }
  }

  /** An error in one channel ends the whole. */
  lemma {:induction false} FillFails(e: Experiment, channels: seq<Channel>, i: nat)
    requires i < |channels| && Fill(e, channels[..i]).Ok?
    requires FillOne(e, Fill(e, channels[..i]).value, channels[i]).Err?
    ensures Fill(e, channels) == Err(FillOne(e, Fill(e, channels[..i]).value, channels[i]).error)
  {
    var front := channels[..|channels| - 1];
    if i < |front| {
      assert front[..i] == channels[..i];
      FillFails(e, front, i);
    } else {
      assert front == channels[..i];
    }
  }

  // --- what is in the register ---

  /** The row a channel is written to, if any. */
  function RowFor(e: Experiment, channel: Channel): Option<int> {
    if channel.qubit in e.sdk && e.sdk[channel.qubit] in e.qToC then
      RowOf(e.qToC[e.sdk[channel.qubit]], e.width)
    else
      None
  }

  /** A row holds the digits of the last channel written to it. */
  lemma {:induction false} LastChannelCounts(e: Experiment, channels: seq<Channel>, i: nat)
    requires Fill(e, channels).Ok? && i < |channels| && RowFor(e, channels[i]).Some?
    requires forall j :: i < j < |channels| ==> RowFor(e, channels[j]) != RowFor(e, channels[i])
    ensures var rows, row := Fill(e, channels).value.rows, RowFor(e, channels[i]).value;
            row in rows && rows[row] == channels[i].digits
  {
    if i < |channels| - 1 {
      var front := channels[..|channels| - 1];
      assert RowFor(e, channels[|channels| - 1]) != RowFor(e, channels[i]);
      LastChannelCounts(e, front, i);
    }
  }

  lemma {:induction false} UnwrittenRows(e: Experiment, channels: seq<Channel>, row: int)
    requires Fill(e, channels).Ok?
    requires forall j :: 0 <= j < |channels| ==> RowFor(e, channels[j]) != Some(row)
    ensures row !in Fill(e, channels).value.rows
  {
    if channels != [] {
      assert RowFor(e, channels[|channels| - 1]) != Some(row);
      UnwrittenRows(e, channels[..|channels| - 1], row);
    }
  }

  /** The digits of a channel are below the base. */
  predicate DigitsBelow(digits: Digits, base: nat) {
    match digits
    case Same(digit) => 0 <= digit < base
    case PerShot(all) => AreDigits(all, base)
  }

  lemma {:induction false} FilledBelow(e: Experiment, channels: seq<Channel>, base: nat)
    requires Fill(e, channels).Ok? && forall i :: 0 <= i < |channels| ==> DigitsBelow(channels[i].digits, base)
    ensures forall c :: c in Fill(e, channels).value.rows ==> DigitsBelow(Fill(e, channels).value.rows[c], base)
  {
    if channels != [] {
      FilledBelow(e, channels[..|channels| - 1], base);
    }
  }

  /** What the channels write are rows of digits, if all they give are digits. */
  lemma RowsAreDigits(e: Experiment, channels: seq<Channel>, base: nat, shot: nat)
    requires Fill(e, channels).Ok? && shot < e.shots && base > 1
    requires forall i :: 0 <= i < |channels| ==> DigitsBelow(channels[i].digits, base)
    ensures forall c :: c in Fill(e, channels).value.rows ==> Fill(e, channels).value.rows[c].Lasts(e.shots)
    ensures AreDigits(RowAt(e, Fill(e, channels).value.rows, shot), base)
  {
    FilledLasts(e, channels);
    FilledBelow(e, channels, base);
    var rows := Fill(e, channels).value.rows;
    forall c | 0 <= c < e.width
      ensures 0 <= DigitIn(e, rows, c, shot) < base
    {
      if c in rows {
        assert DigitsBelow(rows[c], base) && rows[c].Lasts(e.shots);
        if rows[c].PerShot? {
          assert rows[c].digits[shot] in rows[c].digits;
        }
      }
    }
  }

  /** The little-endian integer of a shot. */
  function Packed(e: Experiment, channels: seq<Channel>, base: nat, shot: nat): int
    requires Fill(e, channels).Ok? && shot < e.shots
  {
    FilledLasts(e, channels);
    Decimal(RowAt(e, Fill(e, channels).value.rows, shot), base, LittleEndian)
  }

  /** Packing is exact: the integer of a shot has, at the position of the slot of a
      channel, the digit of that channel, unless a later one has the same slot. */
  lemma ChannelIsAtItsSlot(e: Experiment, channels: seq<Channel>, base: nat, shot: nat, i: nat)
    requires Fill(e, channels).Ok? && shot < e.shots && base > 1 && i < |channels| && RowFor(e, channels[i]).Some?
    requires forall j :: 0 <= j < |channels| ==> DigitsBelow(channels[j].digits, base)
    requires forall j :: i < j < |channels| ==> RowFor(e, channels[j]) != RowFor(e, channels[i])
    ensures channels[i].digits.Lasts(e.shots) && 0 <= Packed(e, channels, base, shot) < Pow(base, e.width)
    ensures DigitAt(Packed(e, channels, base, shot), base, RowFor(e, channels[i]).value) == channels[i].digits.At(shot)
  {
    RowsAreDigits(e, channels, base, shot);
    LastChannelCounts(e, channels, i);
    DigitsAreKept(RowAt(e, Fill(e, channels).value.rows, shot), base, RowFor(e, channels[i]).value);
  }

  lemma UnwrittenSlotIsZero(e: Experiment, channels: seq<Channel>, base: nat, shot: nat, row: nat)
    requires Fill(e, channels).Ok? && shot < e.shots && base > 1
    requires forall j :: 0 <= j < |channels| ==> DigitsBelow(channels[j].digits, base)
    requires forall j :: 0 <= j < |channels| ==> RowFor(e, channels[j]) != Some(row)
    ensures Packed(e, channels, base, shot) >= 0 && DigitAt(Packed(e, channels, base, shot), base, row) == 0
  {
    RowsAreDigits(e, channels, base, shot);
    UnwrittenRows(e, channels, row);
    DigitsAreKept(RowAt(e, Fill(e, channels).value.rows, shot), base, row);
  }

  /** The row of a channel: its slot, or from the end if that is negative. */
  function RowNumber(e: Experiment, channel: Channel): int {
    if !HasSlot(e, channel) then -1
    else if SlotOf(e, channel) < 0 then SlotOf(e, channel) + e.width
    else SlotOf(e, channel)
  }

  /** The position of a row in the integers, from the least significant digit. */
  function Position(e: Experiment, row: int, order: ByteOrder): int {
    if order == LittleEndian then row else e.width - 1 - row
  }

  /** The channel is the last one of its row. */
  ghost predicate IsLastOfRow(e: Experiment, channels: seq<Channel>, i: nat)
    requires i < |channels|
  {
    forall j :: i < j < |channels| ==> RowNumber(e, channels[j]) != RowNumber(e, channels[i])
  }

  /** The integer of a shot has the digit of a channel at the position of its slot. */
  predicate HasDigit(value: int, e: Experiment, channel: Channel, base: nat, order: ByteOrder, shot: nat)
    requires base > 1
  {
    var at := Position(e, RowNumber(e, channel), order);
    at >= 0 && channel.digits.Lasts(e.shots) && shot < e.shots &&
    DigitAt(value, base, at) == channel.digits.At(shot)
  }

  /** Every integer has the digits of the channels. */
  ghost predicate HasDigits(integers: seq<int>, e: Experiment, channels: seq<Channel>, base: nat, order: ByteOrder)
    requires base > 1 && |integers| == e.shots
  {
    forall shot, i :: 0 <= shot < e.shots && 0 <= i < |channels| && IsLastOfRow(e, channels, i) ==>
      HasDigit(integers[shot], e, channels[i], base, order, shot)
  }

  /** At the other positions there is zero. */
  ghost predicate HasNoOther(integers: seq<int>, e: Experiment, channels: seq<Channel>, base: nat, order: ByteOrder)
    requires base > 1 && |integers| == e.shots
  {
    forall shot, row :: 0 <= shot < e.shots && 0 <= row < e.width &&
                        (forall i :: 0 <= i < |channels| ==> RowNumber(e, channels[i]) != row) ==>
      DigitAt(integers[shot], base, Position(e, row, order)) == 0
  }

  /** What the integers are, if what the channels give are digits. */
  ghost predicate Carries(integers: seq<int>, e: Experiment, channels: seq<Channel>, base: nat, order: ByteOrder)
    requires base > 1
  {
    (forall i :: 0 <= i < |channels| ==> IsSound(e, channels[i]) && DigitsBelow(channels[i].digits, base)) ==>
      && |integers| == e.shots
      && (forall shot :: 0 <= shot < e.shots ==> 0 <= integers[shot] < Pow(base, e.width))
      && HasDigits(integers, e, channels, base, order)
      && HasNoOther(integers, e, channels, base, order)
  }

  lemma {:induction false} ReversedAt(row: seq<int>, k: nat)
    requires k < |row|
    ensures |Reversed(row)| == |row| && Reversed(row)[|row| - 1 - k] == row[k]
  {
    if |row| > 1 {
      ReversedAt(row[1..], if k > 0 then k - 1 else 0);
    }
  }

  lemma {:induction false} ReversedDigits(row: seq<int>)
    ensures forall digit :: digit in Reversed(row) <==> digit in row
  {
    if row != [] {
      ReversedDigits(row[1..]);
      assert row == [row[0]] + row[1..];
    }
  }

  /** The digit of a row of digits at its position. */
  lemma DigitOfRow(row: seq<int>, base: nat, order: ByteOrder, k: nat)
    requires base > 1 && AreDigits(row, base) && k < |row|
    ensures 0 <= Decimal(row, base, order) < Pow(base, |row|)
    ensures DigitAt(Decimal(row, base, order), base, if order == LittleEndian then k else |row| - 1 - k) == row[k]
  {
    if order == LittleEndian {
      DigitsAreKept(row, base, k);
    } else {
      BigEndianIsReversed(row, base);
      ReversedAt(row, k);
      ReversedDigits(row);
      DigitsAreKept(Reversed(row), base, |row| - 1 - k);
    }
  }

  lemma RowForSound(e: Experiment, channel: Channel)
    requires IsSound(e, channel)
    ensures RowFor(e, channel) == Some(RowNumber(e, channel)) && 0 <= RowNumber(e, channel) < e.width
  {
  }

  lemma RowIsBounded(row: seq<int>, base: nat, order: ByteOrder)
    requires base > 1 && AreDigits(row, base)
    ensures 0 <= Decimal(row, base, order) < Pow(base, |row|)
  {
    if order == LittleEndian {
      DigitsAreKept(row, base, 0);
    } else {
      BigEndianIsReversed(row, base);
      ReversedDigits(row);
      ReversedLength(row);
      DigitsAreKept(Reversed(row), base, 0);
    }
  }

  lemma {:induction false} ReversedLength(row: seq<int>)
    ensures |Reversed(row)| == |row|
  {
    if row != [] {
      ReversedLength(row[1..]);
    }
  }

  /** One channel, in one shot. */
  lemma ChannelIsCarried(e: Experiment, channels: seq<Channel>, base: nat, order: ByteOrder, shot: nat, i: nat)
    requires Fill(e, channels).Ok? && shot < e.shots && base > 1 && i < |channels|
    requires forall j :: 0 <= j < |channels| ==> IsSound(e, channels[j]) && DigitsBelow(channels[j].digits, base)
    requires IsLastOfRow(e, channels, i)
    ensures forall c :: c in Fill(e, channels).value.rows ==> Fill(e, channels).value.rows[c].Lasts(e.shots)
    ensures HasDigit(Decimal(RowAt(e, Fill(e, channels).value.rows, shot), base, order), e, channels[i],
                     base, order, shot)
  {
    hide Decimal, DigitAt, Pow, Fill, RowFor, IsSound, RowNumber, DigitsBelow;
    forall j | 0 <= j < |channels|
      ensures RowFor(e, channels[j]) == Some(RowNumber(e, channels[j])) && 0 <= RowNumber(e, channels[j]) < e.width
    {
      RowForSound(e, channels[j]);
    }
    RowsAreDigits(e, channels, base, shot);
    LastChannelCounts(e, channels, i);
    DigitOfRow(RowAt(e, Fill(e, channels).value.rows, shot), base, order, RowNumber(e, channels[i]));
  }

  lemma NothingIsCarried(e: Experiment, channels: seq<Channel>, base: nat, order: ByteOrder, shot: nat, row: nat)
    requires Fill(e, channels).Ok? && shot < e.shots && base > 1 && row < e.width
    requires forall j :: 0 <= j < |channels| ==> IsSound(e, channels[j]) && DigitsBelow(channels[j].digits, base)
    requires forall j :: 0 <= j < |channels| ==> RowNumber(e, channels[j]) != row
    ensures forall c :: c in Fill(e, channels).value.rows ==> Fill(e, channels).value.rows[c].Lasts(e.shots)
    ensures var value := Decimal(RowAt(e, Fill(e, channels).value.rows, shot), base, order);
            DigitAt(value, base, Position(e, row, order)) == 0
  {
    hide Decimal, DigitAt, Pow, Fill, RowFor, IsSound, RowNumber, DigitsBelow;
    forall j | 0 <= j < |channels|
      ensures RowFor(e, channels[j]) != Some(row)
    {
      RowForSound(e, channels[j]);
    }
    RowsAreDigits(e, channels, base, shot);
    UnwrittenRows(e, channels, row);
    DigitOfRow(RowAt(e, Fill(e, channels).value.rows, shot), base, order, row);
  }

  lemma DigitsCarried(e: Experiment, channels: seq<Channel>, base: nat, order: ByteOrder, integers: seq<int>)
    requires Fill(e, channels).Ok? && |integers| == e.shots && base > 1
    requires forall c :: c in Fill(e, channels).value.rows ==> Fill(e, channels).value.rows[c].Lasts(e.shots)
    requires forall shot :: 0 <= shot < e.shots ==>
               integers[shot] == Decimal(RowAt(e, Fill(e, channels).value.rows, shot), base, order)
    requires forall i :: 0 <= i < |channels| ==> IsSound(e, channels[i]) && DigitsBelow(channels[i].digits, base)
    ensures HasDigits(integers, e, channels, base, order)
  {
    hide Decimal, HasDigit, Fill, DigitsBelow, IsSound, IsLastOfRow, RowAt;
    forall shot, i | 0 <= shot < e.shots && 0 <= i < |channels| && IsLastOfRow(e, channels, i)
      ensures HasDigit(integers[shot], e, channels[i], base, order, shot)
    {
      ChannelIsCarried(e, channels, base, order, shot, i);
    }
  }

  lemma NoOtherCarried(e: Experiment, channels: seq<Channel>, base: nat, order: ByteOrder, integers: seq<int>)
    requires Fill(e, channels).Ok? && |integers| == e.shots && base > 1
    requires forall c :: c in Fill(e, channels).value.rows ==> Fill(e, channels).value.rows[c].Lasts(e.shots)
    requires forall shot :: 0 <= shot < e.shots ==>
               integers[shot] == Decimal(RowAt(e, Fill(e, channels).value.rows, shot), base, order)
    requires forall i :: 0 <= i < |channels| ==> IsSound(e, channels[i]) && DigitsBelow(channels[i].digits, base)
    ensures HasNoOther(integers, e, channels, base, order)
  {
    hide Decimal, DigitAt, Pow, Fill, RowNumber, DigitsBelow, IsSound, RowAt;
    forall shot, row | 0 <= shot < e.shots && 0 <= row < e.width &&
                       (forall i :: 0 <= i < |channels| ==> RowNumber(e, channels[i]) != row)
      ensures DigitAt(integers[shot], base, Position(e, row, order)) == 0
    {
      NothingIsCarried(e, channels, base, order, shot, row);
    }
  }

  lemma IntegersCarry(e: Experiment, channels: seq<Channel>, base: nat, order: ByteOrder, integers: seq<int>)
    requires Fill(e, channels).Ok? && |integers| == e.shots && base > 1
    requires forall c :: c in Fill(e, channels).value.rows ==> Fill(e, channels).value.rows[c].Lasts(e.shots)
    requires forall shot :: 0 <= shot < e.shots ==>
               integers[shot] == Decimal(RowAt(e, Fill(e, channels).value.rows, shot), base, order)
    ensures Carries(integers, e, channels, base, order)
  {
    hide Decimal, Pow, Fill, DigitsBelow, IsSound, AreDigits, HasDigits, HasNoOther;
    if forall i :: 0 <= i < |channels| ==> IsSound(e, channels[i]) && DigitsBelow(channels[i].digits, base) {
      forall shot | 0 <= shot < e.shots
        ensures 0 <= integers[shot] < Pow(base, e.width)
      {
        RowsAreDigits(e, channels, base, shot);
        RowIsBounded(RowAt(e, Fill(e, channels).value.rows, shot), base, order);
      }
      DigitsCarried(e, channels, base, order, integers);
      NoOtherCarried(e, channels, base, order, integers);
    }
  }

  /** Qubits with different ids have different numbers. */
  lemma {:induction false} SdkQubitsDiffer(ids: seq<int>, a: int, b: int)
    ensures forall id :: id in SdkQubits(ids) <==> id in ids
    ensures forall id :: id in SdkQubits(ids) ==> SdkQubits(ids)[id] < |ids| && ids[SdkQubits(ids)[id]] == id
    ensures a in SdkQubits(ids) && b in SdkQubits(ids) && SdkQubits(ids)[a] == SdkQubits(ids)[b] ==> a == b
  {
    if ids != [] {
      SdkQubitsDiffer(ids[..|ids| - 1], a, b);
      assert ids == ids[..|ids| - 1] + [ids[|ids| - 1]];
    }
  }

  // --- slots and width, when only the acquire instruction tells them ---

  /** `dict(zip(qubits, slots))`, for the first n pairs. */
  function ZipSlots(qubits: seq<int>, slots: seq<int>, n: nat): map<int, int>
    requires n <= |qubits| && n <= |slots|
  {
    if n == 0 then map[] else ZipSlots(qubits, slots, n - 1)[qubits[n - 1] := slots[n - 1]]
  }

  function InferredWidth(slots: seq<int>): int
    requires slots != []
  {
    if |slots| == 1 then slots[0] + 1
    else
      var front := InferredWidth(slots[..|slots| - 1]);
      if slots[|slots| - 1] + 1 > front then slots[|slots| - 1] + 1 else front
  }

  lemma {:induction false} InferredWidthBounds(slots: seq<int>, i: nat)
    requires i < |slots|
    ensures slots[i] < InferredWidth(slots)
  {
    if i < |slots| - 1 {
      InferredWidthBounds(slots[..|slots| - 1], i);
    }
  }

  /** Every slot has its own row then. */
  lemma {:induction false} SlotsFit(qubits: seq<int>, slots: seq<int>, n: nat, qubit: int)
    requires n <= |qubits| && n <= |slots| && slots != [] && forall i :: 0 <= i < |slots| ==> slots[i] >= 0
    requires qubit in ZipSlots(qubits, slots, n)
    ensures InferredWidth(slots) >= 0
    ensures RowOf(ZipSlots(qubits, slots, n)[qubit], InferredWidth(slots)) == Some(ZipSlots(qubits, slots, n)[qubit])
  {
    InferredWidthBounds(slots, n - 1);
    if qubits[n - 1] != qubit {
      SlotsFit(qubits, slots, n - 1, qubit);
    }
  }

  /** The width is one more than the greatest slot. */
  lemma {:induction false} WidthIsExact(slots: seq<int>) returns (i: nat)
    requires slots != []
    ensures i < |slots| && InferredWidth(slots) == slots[i] + 1
    ensures forall j :: 0 <= j < |slots| ==> slots[j] <= slots[i]
  {
    i := 0;
    if |slots| > 1 {
      i := WidthIsExact(slots[..|slots| - 1]);
      if slots[|slots| - 1] > slots[i] {
        i := |slots| - 1;
      }
    }
  }

  /** A qubit has the slot that is given beside it, the last time it is given. */
  lemma {:induction false} SlotsAreZipped(qubits: seq<int>, slots: seq<int>, n: nat)
    requires n <= |qubits| && n <= |slots|
    ensures forall qubit :: qubit in ZipSlots(qubits, slots, n) <==> exists i :: 0 <= i < n && qubits[i] == qubit
    ensures forall i :: 0 <= i < n && (forall j :: i < j < n ==> qubits[j] != qubits[i]) ==>
              ZipSlots(qubits, slots, n)[qubits[i]] == slots[i]
  {
    if n > 0 {
      SlotsAreZipped(qubits, slots, n - 1);
      var before := ZipSlots(qubits, slots, n - 1);
      forall qubit
        ensures qubit in ZipSlots(qubits, slots, n) <==> exists i :: 0 <= i < n && qubits[i] == qubit
      {
        if qubit in before {
          var i :| 0 <= i < n - 1 && qubits[i] == qubit;
        }
        if qubit == qubits[n - 1] {
          var i := n - 1;
          assert qubits[i] == qubit;
        }
      }
      forall i | 0 <= i < n && (forall j :: i < j < n ==> qubits[j] != qubits[i])
        ensures qubits[i] in ZipSlots(qubits, slots, n) && ZipSlots(qubits, slots, n)[qubits[i]] == slots[i]
      {
        if i < n - 1 {
          var last := n - 1;
          assert qubits[last] != qubits[i];
        }
      }
    }
  }
}
