/** Matching a function in memory against the patterns of library functions. */
module StaticHle {
  import opened StaticHleCrc

  const START: nat := 32
  const ANY: bv16 := 0xFFFF

  /** The first 32 bytes, each given or arbitrary; length and checksum of the part behind them; the
      length of the function; the module it belongs to and its identifier there. */
  datatype Pattern = Pattern(start: seq<bv16>, crcLength: nat, crc: bv32, totalLength: nat, unit: string, fnid: bv32)

  /** No pattern; the first that matches names a module or a function that the emulator does not
      have; or it is replaced by a jump to `target`. */
  datatype Outcome = NoMatch | NoModule(index: nat) | NoFunction(index: nat) | Replaced(index: nat, target: nat)

  predicate IsPattern(p: Pattern) {
    |p.start| == START && p.crcLength < 256
  }

  predicate StartMatches(p: Pattern, memory: seq<bv8>)
    requires IsPattern(p) && |memory| >= START + 255
  {
    forall i :: 0 <= i < START ==> p.start[i] == ANY || memory[i] as bv16 == p.start[i]
  }

  function Middle(p: Pattern, memory: seq<bv8>): seq<bv8>
    requires IsPattern(p) && |memory| >= START + 255
  {
    memory[START..START + p.crcLength]
  }

  /** `size` is the length of the function that starts at `memory`. */
  predicate Matches(p: Pattern, memory: seq<bv8>, size: nat)
    requires IsPattern(p) && |memory| >= START + 255
  {
    size >= p.totalLength && StartMatches(p, memory) && (p.crcLength == 0 || Checksum(Middle(p, memory)) == p.crc)
  }

  /** The matching loop: the first pattern that matches, or -1. */
  method FindPattern(patterns: seq<Pattern>, memory: seq<bv8>, size: nat) returns (index: int)
    requires forall k :: 0 <= k < |patterns| ==> IsPattern(patterns[k])
    requires |memory| >= START + 255
    ensures -1 <= index < |patterns|
    ensures 0 <= index ==> Matches(patterns[index], memory, size)
    ensures forall k :: 0 <= k < (if index < 0 then |patterns| else index) ==> !Matches(patterns[k], memory, size)
  {
    hide Checksum;
    index := 0;
    while index < |patterns|
      invariant 0 <= index <= |patterns|
      invariant forall k :: 0 <= k < index ==> !Matches(patterns[k], memory, size)
    {
      var matches := MatchesPattern(patterns[index], memory, size);
      if matches {
        return;
      }
      index := index + 1;
    }
    index := -1;
  }

  predicate IsFirstMatch(patterns: seq<Pattern>, index: nat, memory: seq<bv8>, size: nat)
    requires forall k :: 0 <= k < |patterns| ==> IsPattern(patterns[k])
    requires |memory| >= START + 255
  {
    && index < |patterns| && Matches(patterns[index], memory, size)
    && forall k :: 0 <= k < index ==> !Matches(patterns[k], memory, size)
  }

  /** The whole check, with the functions that the emulator has, by module and identifier. Only the
      first pattern that matches counts: when its module is missing no later one is tried. */
  method CheckAgainstPatterns(patterns: seq<Pattern>, memory: seq<bv8>, size: nat, library: map<string, map<bv32, nat>>)
      returns (r: Outcome)
    requires forall k :: 0 <= k < |patterns| ==> IsPattern(patterns[k])
    requires |memory| >= START + 255
    ensures r.NoMatch? <==> forall k :: 0 <= k < |patterns| ==> !Matches(patterns[k], memory, size)
    ensures !r.NoMatch? ==> IsFirstMatch(patterns, r.index, memory, size)
    ensures r.NoModule? ==> patterns[r.index].unit !in library
    ensures r.NoFunction? ==>
              && patterns[r.index].unit in library
              && patterns[r.index].fnid !in library[patterns[r.index].unit]
    ensures r.Replaced? ==>
              var p := patterns[r.index];
              p.unit in library && p.fnid in library[p.unit] && r.target == library[p.unit][p.fnid]
  {
    hide Matches;
    var index := FindPattern(patterns, memory, size);
    if index < 0 {
      return NoMatch;
    }
    var p := patterns[index];
    if p.unit !in library {
      return NoModule(index);
    }
    if p.fnid !in library[p.unit] {
      return NoFunction(index);
    }
    return Replaced(index, library[p.unit][p.fnid]);
  }

  /** The body of the loop. */
  method MatchesPattern(p: Pattern, memory: seq<bv8>, size: nat) returns (matches: bool)
    requires IsPattern(p) && |memory| >= START + 255
    ensures matches <==> Matches(p, memory, size)
  {
    hide Checksum;
    if size < p.totalLength {
      return false;
    }
    var i := 0;
    while i < START
      invariant 0 <= i <= START
      invariant forall k :: 0 <= k < i ==> p.start[k] == ANY || memory[k] as bv16 == p.start[k]
    {
      if p.start[i] != ANY && memory[i] as bv16 != p.start[i] {
        return false;
      }
      i := i + 1;
    }
    if p.crcLength != 0 {
      var crc := GenCrc16(Middle(p, memory));
      if crc != p.crc {
        return false;
      }
    }
    return true;
  }

  function Wide(b: bv8): bv16 {
    b as bv16
  }

  /** A pattern made from a function, with the bytes in `given` given. */
  function PatternOf(memory: seq<bv8>, given: seq<bool>, crcLength: nat, totalLength: nat, unit: string, fnid: bv32)
      : (p: Pattern)
    requires |memory| >= START + 255 && |given| == START && crcLength < 256
    ensures IsPattern(p)
  {
    Pattern(seq(START, i requires 0 <= i < START => if given[i] then Wide(memory[i]) else ANY), crcLength,
            Checksum(memory[START..START + crcLength]), totalLength, unit, fnid)
  }

  /** A function matches a pattern made from it, at that length or any greater one; and so does every
      function with the same given bytes and the same checked part, but none with another given byte. */
  lemma OwnPatternMatches(memory: seq<bv8>, other: seq<bv8>, given: seq<bool>, crcLength: nat, totalLength: nat,
      size: nat, unit: string, fnid: bv32)
    requires |memory| >= START + 255 && |other| >= START + 255 && |given| == START && crcLength < 256
    ensures var p := PatternOf(memory, given, crcLength, totalLength, unit, fnid);
            && (Matches(p, memory, size) <==> size >= totalLength)
            && ((forall i :: 0 <= i < START && given[i] ==> other[i] == memory[i])
                && other[START..START + crcLength] == memory[START..START + crcLength] && size >= totalLength
                ==> Matches(p, other, size))
            && ((exists i :: 0 <= i < START && given[i] && other[i] != memory[i]) ==> !Matches(p, other, size))
            && (size < totalLength ==> !Matches(p, other, size))
  {
    hide Checksum;
    var p := PatternOf(memory, given, crcLength, totalLength, unit, fnid);
    assert StartMatches(p, memory);
    if i :| 0 <= i < START && given[i] && other[i] != memory[i] {
      SameByte(other[i], memory[i]);
      assert p.start[i] == memory[i] as bv16;
    }
  }

  lemma SameByte(a: bv8, b: bv8)
    ensures a as bv16 == b as bv16 <==> a == b
    ensures a as bv16 != ANY
  {
  }

  /** Without a checked part the checksum in the pattern does not matter. */
  lemma NothingChecked(p: Pattern, memory: seq<bv8>, size: nat, crc: bv32)
    requires IsPattern(p) && |memory| >= START + 255 && p.crcLength == 0
    ensures Matches(p, memory, size) <==> Matches(p.(crc := crc), memory, size)
  {
    assert p.(crc := crc).start == p.start;
    hide Checksum;
  }

  /** A pattern never matches two functions whose checked parts differ only in one byte or in two
      adjacent ones. */
  lemma NoTwoNeighboursMatch(p: Pattern, memory: seq<bv8>, other: seq<bv8>, size: nat, k: nat, n: nat)
    requires IsPattern(p) && |memory| >= START + 255 && |other| >= START + 255
    requires n <= 2 && k + n <= p.crcLength && Middle(p, memory) != Middle(p, other)
    requires Middle(p, memory)[..k] == Middle(p, other)[..k] && Middle(p, memory)[k + n..] == Middle(p, other)[k + n..]
    ensures !(Matches(p, memory, size) && Matches(p, other, size))
  {
    var a, b := Middle(p, memory), Middle(p, other);
    assert a == a[..k] + a[k..k + n] + a[k + n..];
    assert b == b[..k] + b[k..k + n] + b[k + n..];
    hide Checksum;
    AdjacentBytesChangeChecksum(a[..k], a[k..k + n], b[k..k + n], a[k + n..]);
  }
}
