/**
 The S-register file of internal/modem/sregisters.go: values are clamped, so the ranges the data path relies on always
 hold.
 */
module SRegisterFile {
  import opened Bytes

  const DEFAULTS: map<int, int> :=
    map[0 := 0, 1 := 0, 2 := 43, 3 := 13, 4 := 10, 5 := 8, 6 := 2, 7 := 30, 8 := 2, 9 := 6, 10 := 7, 12 := 50]

  datatype Limit = Limit(min: int, max: int)

  const LIMITS: map<int, Limit> :=
    map[0 := Limit(0, 255), 2 := Limit(0, 127), 3 := Limit(1, 31), 4 := Limit(1, 31), 5 := Limit(1, 31),
        6 := Limit(0, 10), 7 := Limit(1, 60), 8 := Limit(0, 10), 9 := Limit(1, 255), 10 := Limit(1, 255),
        12 := Limit(20, 255)]

  function LimitOf(reg: int): Limit {
    if reg in LIMITS then LIMITS[reg] else Limit(0, 255)
  }

  predicate InRange(reg: int, value: int) {
    LimitOf(reg).min <= value <= LimitOf(reg).max
  }

  lemma DefaultsInRange()
    ensures 2 in DEFAULTS && 12 in DEFAULTS
    ensures forall reg :: reg in DEFAULTS ==> InRange(reg, DEFAULTS[reg])
  {
  }

  class SRegisters {
    var registers: map<int, int>

    predicate Valid()
      reads this
    {
      && 2 in registers && 12 in registers
      && forall reg :: reg in registers ==> InRange(reg, registers[reg])
    }

    constructor ()
      ensures Valid() && registers == DEFAULTS
    {
      DefaultsInRange();
      registers := DEFAULTS;
    }

    method Reset()
      requires Valid()
      modifies this
      ensures Valid()
      ensures registers == old(registers) + DEFAULTS
    {
      DefaultsInRange();
      registers := registers + DEFAULTS;
    }

    /** Stores the value of the register's range that is nearest to the one asked for, and touches no other register. */
    method Set(reg: int, value: int)
      requires Valid()
      modifies this
      ensures Valid() && reg in registers
      ensures registers == old(registers)[reg := registers[reg]]
      ensures forall v :: InRange(reg, v) ==> Distance(registers[reg], value) <= Distance(v, value)
    {
      var v := value;
      var limit := LimitOf(reg);
      if v < limit.min {
        v := limit.min;
      } else if v > limit.max {
        v := limit.max;
      }
      registers := registers[reg := v];
    }

    function Get(reg: int): int
      reads this
    {
      if reg in registers then registers[reg] else 0
    }

    /** The escape character is ASCII, so it is never the 255 that TELNET doubles. */
    function EscapeChar(): (c: byte)
      requires Valid()
      reads this
      ensures c <= 127 && c != IAC
    {
      Get(2)
    }

    /** Milliseconds: between 0.4 and 5.1 seconds. */
    function EscapeGuardTime(): (ms: int)
      requires Valid()
      reads this
      ensures 400 <= ms <= 5100 && ms % 20 == 0
    {
      Get(12) * 20
    }
  }

  function Distance(a: int, b: int): int {
    if a < b then b - a else a - b
  }
}
