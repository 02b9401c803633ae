/** The event queues that the audio thread notifies after each mixing period, with their decimation
    flags; and their registration and removal. */
module AudioEvents {
  const DECIMATE_2: bv32 := 0x0800_0000
  const DECIMATE_4: bv32 := 0x1000_0000
  const NOMIX: bv32 := 0x4000_0000
  const BEFOREMIX: bv32 := 0x8000_0000
  const SLOTS: nat := 64

  /** A registered queue. `port` stands for the queue itself, which its key names. */
  datatype Key = Key(startPeriod: bv8, flags: bv32, source: nat, port: nat)

  datatype Event = Event(port: nat, source: nat, data3: nat)

  datatype Status = Success | TransEventError

  predicate Has(flags: bv32, flag: bv32) {
    flags & flag != 0
  }

  /** The number of mixing periods from one event to the next. */
  function Periods(flags: bv32): (p: nat)
    ensures p == 1 || p == 2 || p == 4 || p == 8
  {
    (if Has(flags, DECIMATE_2) then 2 else 1) * (if Has(flags, DECIMATE_4) then 4 else 1)
  }

  function Number(x: bv8): (n: nat)
    ensures n < 256
  {
    x as int
  }

  /** The time has come: the 8-bit period counter is a whole number of the key's periods away from
      where it was registered. */
  predicate IsDue(k: Key, period: bv8) {
    !Has(k.flags, NOMIX) && (Number(period) - Number(k.startPeriod)) % Periods(k.flags) == 0
  }

  function EventOf(k: Key): Event {
    Event(k.port, k.source, if Has(k.flags, BEFOREMIX) then k.source else 0)
  }

  /** The events of a period, in the order of registration. */
  function Due(keys: seq<Key>, period: bv8): seq<Event> {
    if keys == [] then []
    else Due(keys[..|keys| - 1], period) + if IsDue(keys[|keys| - 1], period) then [EventOf(keys[|keys| - 1])] else []
  }

  function Low(a: bv8, mask: bv8): bv8 {
    a & mask
  }

  lemma XorMasked(a: bv8, b: bv8, mask: bv8)
    ensures (a ^ b) & mask == 0 <==> Low(a, mask) == Low(b, mask)
  {
  }

  lemma LowOne(a: bv8)
    ensures Number(Low(a, 1)) == Number(a) % 2
  {
  }

  lemma LowTwo(a: bv8)
    ensures Number(Low(a, 3)) == Number(a) % 4
  {
  }

  lemma LowThree(a: bv8)
    ensures Number(Low(a, 7)) == Number(a) % 8
  {
  }

  lemma SameNumber(a: bv8, b: bv8)
    ensures a == b <==> Number(a) == Number(b)
  {
  }

  lemma RemainderTwo(q: int, r: int)
    requires 0 <= r < 2
    ensures (2 * q + r) % 2 == r
  {
  }

  lemma RemainderFour(q: int, r: int)
    requires 0 <= r < 4
    ensures (4 * q + r) % 4 == r
  {
  }

  lemma RemainderEight(q: int, r: int)
    requires 0 <= r < 8
    ensures (8 * q + r) % 8 == r
  {
  }

  lemma CongruentTwo(x: int, y: int)
    ensures x % 2 == y % 2 <==> (x - y) % 2 == 0
  {
    var d := x % 2 - y % 2;
    RemainderTwo(x / 2 - y / 2 + (if d < 0 then -1 else 0), if d < 0 then d + 2 else d);
  }

  lemma CongruentFour(x: int, y: int)
    ensures x % 4 == y % 4 <==> (x - y) % 4 == 0
  {
    var d := x % 4 - y % 4;
    RemainderFour(x / 4 - y / 4 + (if d < 0 then -1 else 0), if d < 0 then d + 4 else d);
  }

  lemma CongruentEight(x: int, y: int)
    ensures x % 8 == y % 8 <==> (x - y) % 8 == 0
  {
    var d := x % 8 - y % 8;
    RemainderEight(x / 8 - y / 8 + (if d < 0 then -1 else 0), if d < 0 then d + 8 else d);
  }

  /** The masked exclusive or of the two counters is congruence. */
  lemma MaskIsCongruence(a: bv8, b: bv8, mask: bv8)
    requires mask == 1 || mask == 3 || mask == 7
    ensures (a ^ b) & mask == 0 <==> (Number(a) - Number(b)) % (Number(mask) + 1) == 0
  {
    XorMasked(a, b, mask);
    assert Number(1) == 1 && Number(3) == 3 && Number(7) == 7;
    hide Low, Number;
    SameNumber(Low(a, mask), Low(b, mask));
    if mask == 1 {
      LowOne(a);
      LowOne(b);
      CongruentTwo(Number(a), Number(b));
    } else if mask == 3 {
      LowTwo(a);
      LowTwo(b);
      CongruentFour(Number(a), Number(b));
    } else {
      LowThree(a);
      LowThree(b);
      CongruentEight(Number(a), Number(b));
    }
  }

  function Mask(flags: bv32): bv8 {
    var periods := (if Has(flags, DECIMATE_2) then 2 else 1) as bv8;
    (if Has(flags, DECIMATE_4) then periods * 4 else periods) - 1
  }

  lemma MaskedTest(k: Key, period: bv8)
    ensures (period ^ k.startPeriod) & Mask(k.flags) == 0 <==>
              (Number(period) - Number(k.startPeriod)) % Periods(k.flags) == 0
  {
    MaskOfFlags(k.flags);
    if Mask(k.flags) == 0 {
      assert (period ^ k.startPeriod) & 0 == 0;
    } else {
      MaskIsCongruence(period, k.startPeriod, Mask(k.flags));
    }
  }

  lemma MaskOfFlags(flags: bv32)
    ensures Mask(flags) == 0 || Mask(flags) == 1 || Mask(flags) == 3 || Mask(flags) == 7
    ensures Periods(flags) == Number(Mask(flags)) + 1
  {
  }

  // ---- counting

  /** The counter after a period; it wraps at 256. */
  function Tick(period: bv8): bv8 {
    period + 1
  }

  /** Number of due periods among the `n` that follow `period`. */
  function DueCount(k: Key, period: bv8, n: nat): nat {
    if n == 0 then 0
    else DueCount(k, period, n - 1) + if IsDue(k, After(period, n)) then 1 else 0
  }

  function After(period: bv8, n: nat): bv8 {
    if n == 0 then period else Tick(After(period, n - 1))
  }

  lemma {:induction false} AfterIs(period: bv8, n: nat)
    ensures Number(After(period, n)) == (Number(period) + n) % 256
  {
    hide Number, Tick;
    if n > 0 {
      AfterIs(period, n - 1);
      TickIs(After(period, n - 1));
      WrapStep(Number(period) + (n - 1));
    }
  }

  lemma TickIs(period: bv8)
    ensures Number(Tick(period)) == if Number(period) == 255 then 0 else Number(period) + 1
  {
  }

  lemma WrapStep(x: nat)
    ensures (x + 1) % 256 == if x % 256 == 255 then 0 else x % 256 + 1
  {
  }

  /** After `n` periods from its registration a mixing key is due exactly when `n` is a multiple of its
      periods, for all that the counter has wrapped. */
  lemma DueAfter(k: Key, n: nat)
    requires !Has(k.flags, NOMIX)
    ensures IsDue(k, After(k.startPeriod, n)) <==> n % Periods(k.flags) == 0
  {
    hide Has, Periods, After, Number;
    AfterIs(k.startPeriod, n);
    WrappedDifference(Number(k.startPeriod), n, Periods(k.flags));
  }

  lemma WrappedDifference(start: nat, n: nat, p: nat)
    requires p == 1 || p == 2 || p == 4 || p == 8
    ensures ((start + n) % 256 - start) % p == 0 <==> n % p == 0
  {
    var w := (start + n) / 256;
    assert (start + n) % 256 - start == n - 256 * w;
    Multiples(n, w);
  }

  lemma Multiples(n: int, w: int)
    ensures (n - 256 * w) % 2 == n % 2 && (n - 256 * w) % 4 == n % 4 && (n - 256 * w) % 8 == n % 8
  {
    MultiplesOfTwo(n, w);
    MultiplesOfFour(n, w);
    MultiplesOfEight(n, w);
  }

  lemma MultiplesOfTwo(n: int, w: int)
    ensures (n - 256 * w) % 2 == n % 2
  {
    RemainderTwo(n / 2 - 128 * w, n % 2);
  }

  lemma MultiplesOfFour(n: int, w: int)
    ensures (n - 256 * w) % 4 == n % 4
  {
    RemainderFour(n / 4 - 64 * w, n % 4);
  }

  lemma MultiplesOfEight(n: int, w: int)
    ensures (n - 256 * w) % 8 == n % 8
  {
    RemainderEight(n / 8 - 32 * w, n % 8);
  }

  /** A key that stays registered for `n` periods receives `n / p` events. */
  lemma {:induction false} DueCountIs(k: Key, n: nat)
    requires !Has(k.flags, NOMIX)
    ensures DueCount(k, k.startPeriod, n) == n / Periods(k.flags)
  {
    if n > 0 {
      DueCountIs(k, n - 1);
      DueAfter(k, n);
      NextQuotient(n - 1, Periods(k.flags));
      hide IsDue, After, Periods;
    }
  }

  lemma NextQuotient(n: nat, p: nat)
    requires p == 1 || p == 2 || p == 4 || p == 8
    ensures (n + 1) / p == n / p + if (n + 1) % p == 0 then 1 else 0
  {
  }

  // ---- registration

  /** The queues of the keys are all different. */
  predicate Distinct(keys: seq<Key>) {
    forall i, j :: 0 <= i < j < |keys| ==> keys[i].port != keys[j].port
  }

  ghost predicate Registered(keys: seq<Key>, port: nat) {
    exists k: Key :: k in keys && k.port == port
  }

  /** The registration loop: keys of destroyed queues are erased up to the first key of `port`. */
  function Swept(keys: seq<Key>, port: nat, alive: set<nat>): seq<Key> {
    if keys == [] || keys[0].port == port then keys
    else (if keys[0].port in alive then [keys[0]] else []) + Swept(keys[1..], port, alive)
  }

  /** The sweep erases only keys of destroyed queues. */
  lemma {:induction false} SweptKeeps(keys: seq<Key>, port: nat, alive: set<nat>)
    ensures forall k :: k in Swept(keys, port, alive) ==> k in keys
    ensures forall k :: k in keys && (k.port in alive || k.port == port) ==> k in Swept(keys, port, alive)
    decreases |keys|
  {
    if keys != [] && keys[0].port != port {
      SweptKeeps(keys[1..], port, alive);
      assert forall k :: k in keys ==> k == keys[0] || k in keys[1..];
    }
  }

  /** The keys of live queues, in order. */
  function Living(keys: seq<Key>, alive: set<nat>): seq<Key> {
    if keys == [] then []
    else (if keys[0].port in alive then [keys[0]] else []) + Living(keys[1..], alive)
  }

  lemma SweptOne(keys: seq<Key>, port: nat, alive: set<nat>)
    requires keys != []
    ensures Swept(keys, port, alive)
         == if keys[0].port == port then keys
            else (if keys[0].port in alive then [keys[0]] else []) + Swept(keys[1..], port, alive)
    ensures Swept([], port, alive) == [] && Living([], alive) == []
  {
  }

  lemma LivingPrefix(keys: seq<Key>, alive: set<nat>, i: nat)
    requires 0 < i <= |keys|
    ensures Living(keys[..i], alive)
         == (if keys[0].port in alive then [keys[0]] else []) + Living(keys[1..][..i - 1], alive)
  {
    assert keys[..i][1..] == keys[1..][..i - 1];
  }

  lemma Associate<T>(p: seq<T>, q: seq<T>, r: seq<T>)
    ensures p + (q + r) == p + q + r
  {
  }

  /** It erases all of those that stand before the first key of `port`, at place `i`. */
  lemma {:induction false} SweptExactly(keys: seq<Key>, port: nat, alive: set<nat>, i: nat)
    requires i <= |keys| && (i < |keys| ==> keys[i].port == port) && forall j :: 0 <= j < i ==> keys[j].port != port
    ensures Swept(keys, port, alive) == Living(keys[..i], alive) + keys[i..]
    decreases |keys|
  {
    if keys == [] {
    } else {
      SweptOne(keys, port, alive);
      hide Swept, Living;
      if i == 0 {
        assert keys[..0] == [] && keys[0..] == keys && [] + keys == keys;
      } else {
        SweptExactly(keys[1..], port, alive, i - 1);
        LivingPrefix(keys, alive, i);
        assert keys[1..][i - 1..] == keys[i..];
        Associate(if keys[0].port in alive then [keys[0]] else [], Living(keys[1..][..i - 1], alive), keys[i..]);
      }
    }
  }

  lemma {:induction false} LivingAre(keys: seq<Key>, alive: set<nat>)
    ensures forall k :: k in Living(keys, alive) <==> k in keys && k.port in alive
    decreases |keys|
  {
    if keys != [] {
      LivingAre(keys[1..], alive);
      assert forall k :: k in keys ==> k == keys[0] || k in keys[1..];
    }
  }

  lemma {:induction false} SweptDistinct(keys: seq<Key>, port: nat, alive: set<nat>)
    requires Distinct(keys)
    ensures Distinct(Swept(keys, port, alive))
    decreases |keys|
  {
    if keys != [] && keys[0].port != port {
      TailDistinct(keys);
      SweptDistinct(keys[1..], port, alive);
      SweptKeeps(keys[1..], port, alive);
      hide Swept;
      HeadDistinct(keys[0], Swept(keys[1..], port, alive));
      assert [] + Swept(keys[1..], port, alive) == Swept(keys[1..], port, alive);
    }
  }

  lemma TailDistinct(keys: seq<Key>)
    requires Distinct(keys) && keys != []
    ensures Distinct(keys[1..]) && forall k :: k in keys[1..] ==> k.port != keys[0].port
  {
  }

  lemma HeadDistinct(k: Key, keys: seq<Key>)
    requires Distinct(keys) && forall x :: x in keys ==> x.port != k.port
    ensures Distinct([k] + keys)
  {
  }

  /** The removal loop: the first key of a live queue `port` is erased if its flags are those given. */
  function Removed(keys: seq<Key>, port: nat, flags: bv32, alive: set<nat>): seq<Key> {
    if keys == [] then []
    else if keys[0].port == port && port in alive then (if keys[0].flags == flags then keys[1..] else keys)
    else [keys[0]] + Removed(keys[1..], port, flags, alive)
  }

  lemma {:induction false} RemovedKeeps(keys: seq<Key>, port: nat, flags: bv32, alive: set<nat>)
    ensures forall k :: k in Removed(keys, port, flags, alive) ==> k in keys
    ensures forall k :: k in keys && !(k.port == port && k.flags == flags) ==> k in Removed(keys, port, flags, alive)
    decreases |keys|
  {
    if keys != [] && !(keys[0].port == port && port in alive) {
      RemovedKeeps(keys[1..], port, flags, alive);
      assert forall k :: k in keys ==> k == keys[0] || k in keys[1..];
    }
  }

  lemma {:induction false} RemovedDistinct(keys: seq<Key>, port: nat, flags: bv32, alive: set<nat>)
    requires Distinct(keys)
    ensures Distinct(Removed(keys, port, flags, alive))
    decreases |keys|
  {
    if keys != [] {
      TailDistinct(keys);
      if !(keys[0].port == port && port in alive) {
        RemovedDistinct(keys[1..], port, flags, alive);
        RemovedKeeps(keys[1..], port, flags, alive);
        HeadDistinct(keys[0], Removed(keys[1..], port, flags, alive));
      }
    }
  }

  /** Where there is such a key of a live queue it alone goes. */
  lemma {:induction false} RemovedExactly(keys: seq<Key>, port: nat, flags: bv32, alive: set<nat>, i: nat)
    requires Distinct(keys) && i < |keys| && keys[i].port == port && keys[i].flags == flags && port in alive
    ensures Removed(keys, port, flags, alive) == keys[..i] + keys[i + 1..]
    decreases |keys|
  {
    TailDistinct(keys);
    RemovedOne(keys, port, flags, alive);
    if i > 0 {
      assert keys[0].port != port by {
        assert keys[0].port != keys[i].port;
      }
      hide Removed, Distinct;
      RemovedExactly(keys[1..], port, flags, alive, i - 1);
      SplitBehind(keys, i);
    }
  }

  lemma RemovedOne(keys: seq<Key>, port: nat, flags: bv32, alive: set<nat>)
    requires keys != []
    ensures Removed(keys, port, flags, alive)
         == if keys[0].port == port && port in alive then (if keys[0].flags == flags then keys[1..] else keys)
            else [keys[0]] + Removed(keys[1..], port, flags, alive)
  {
  }

  lemma SplitBehind<T>(s: seq<T>, i: nat)
    requires 0 < i < |s|
    ensures [s[0]] + (s[1..][..i - 1] + s[1..][i..]) == s[..i] + s[i + 1..]
  {
    assert [s[0]] + s[1..][..i - 1] == s[..i] && s[1..][i..] == s[i + 1..];
  }

  /** The state of the registration loop over what were `all` keys. */
  predicate SweepAt(keys: seq<Key>, i: nat, all: seq<Key>, port: nat, alive: set<nat>) {
    && i <= |keys| && keys[..i] + Swept(keys[i..], port, alive) == Swept(all, port, alive)
    && forall k :: k in keys[..i] ==> k.port != port
  }

  lemma SweepBegins(all: seq<Key>, port: nat, alive: set<nat>)
    ensures SweepAt(all, 0, all, port, alive)
  {
    assert all[0..] == all;
  }

  lemma SweepStep(keys: seq<Key>, i: nat, all: seq<Key>, port: nat, alive: set<nat>)
    requires SweepAt(keys, i, all, port, alive) && i < |keys|
    ensures keys[i].port == port ==> keys == Swept(all, port, alive) && Registered(all, port)
    ensures keys[i].port != port && keys[i].port !in alive ==> SweepAt(keys[..i] + keys[i + 1..], i, all, port, alive)
    ensures keys[i].port != port && keys[i].port in alive ==> SweepAt(keys, i + 1, all, port, alive)
  {
    assert keys[i..][1..] == keys[i + 1..];
    assert keys[..i] + keys[i..] == keys && keys[..i + 1] == keys[..i] + [keys[i]];
    var rest := keys[..i] + keys[i + 1..];
    assert rest[..i] == keys[..i] && rest[i..] == keys[i + 1..];
    if keys[i].port == port {
      SweptKeeps(all, port, alive);
      assert keys[i] in keys;
    }
  }

  lemma SweepEnds(keys: seq<Key>, all: seq<Key>, port: nat, alive: set<nat>)
    requires SweepAt(keys, |keys|, all, port, alive)
    ensures keys == Swept(all, port, alive) && !Registered(all, port)
    ensures forall k :: k in keys ==> k.port != port
  {
    assert keys[..|keys|] == keys;
    SweptKeeps(all, port, alive);
  }

  lemma DistinctMore(keys: seq<Key>, k: Key)
    requires Distinct(keys) && forall x :: x in keys ==> x.port != k.port
    ensures Distinct(keys + [k])
  {
  }

  ghost predicate CanRemove(keys: seq<Key>, port: nat, flags: bv32, alive: set<nat>) {
    exists k :: k in keys && k.port == port && k.flags == flags && port in alive
  }

  predicate RemovalAt(keys: seq<Key>, i: nat, port: nat, flags: bv32, alive: set<nat>) {
    && i <= |keys| && keys[..i] + Removed(keys[i..], port, flags, alive) == Removed(keys, port, flags, alive)
    && forall k :: k in keys[..i] ==> !(k.port == port && port in alive)
  }

  lemma RemovalBegins(keys: seq<Key>, port: nat, flags: bv32, alive: set<nat>)
    ensures RemovalAt(keys, 0, port, flags, alive)
  {
    assert keys[0..] == keys;
  }

  lemma RemovedFirst(keys: seq<Key>, i: nat, port: nat, flags: bv32, alive: set<nat>)
    requires i < |keys|
    ensures
      var r := Removed(keys[i..], port, flags, alive);
      if keys[i].port == port && port in alive then r == (if keys[i].flags == flags then keys[i + 1..] else keys[i..])
      else r == [keys[i]] + Removed(keys[i + 1..], port, flags, alive)
  {
    assert keys[i..][1..] == keys[i + 1..];
  }

  lemma RemovalPasses(keys: seq<Key>, i: nat, port: nat, flags: bv32, alive: set<nat>)
    requires RemovalAt(keys, i, port, flags, alive) && i < |keys| && !(keys[i].port == port && port in alive)
    ensures RemovalAt(keys, i + 1, port, flags, alive)
  {
    RemovedFirst(keys, i, port, flags, alive);
    hide Removed;
    var rest := Removed(keys[i + 1..], port, flags, alive);
    assert keys[..i + 1] == keys[..i] + [keys[i]];
    assert keys[..i] + ([keys[i]] + rest) == keys[..i + 1] + rest;
  }

  lemma RemovalHits(keys: seq<Key>, i: nat, port: nat, flags: bv32, alive: set<nat>)
    requires RemovalAt(keys, i, port, flags, alive) && i < |keys| && keys[i].port == port && port in alive
    ensures keys[i].flags == flags ==> keys[..i] + keys[i + 1..] == Removed(keys, port, flags, alive)
    ensures keys[i].flags == flags ==> CanRemove(keys, port, flags, alive)
    ensures keys[i].flags != flags ==> keys == Removed(keys, port, flags, alive)
  {
    RemovedFirst(keys, i, port, flags, alive);
    hide Removed;
    assert keys[..i] + keys[i..] == keys;
    assert keys[i] in keys;
  }

  /** A key with other flags is the only one of its queue. */
  lemma OtherFlags(keys: seq<Key>, i: nat, flags: bv32, alive: set<nat>)
    requires Distinct(keys) && i < |keys| && keys[i].flags != flags
    ensures !CanRemove(keys, keys[i].port, flags, alive)
  {
  }

  lemma RemovalEnds(keys: seq<Key>, port: nat, flags: bv32, alive: set<nat>)
    requires RemovalAt(keys, |keys|, port, flags, alive)
    ensures keys == Removed(keys, port, flags, alive) && !CanRemove(keys, port, flags, alive)
  {
    assert keys[..|keys|] == keys;
  }

  // ---- slots

  predicate Mixes(k: Key) {
    !Has(k.flags, NOMIX)
  }

  /** The queues collected in a period go to numbered slots. Every key that takes part in the mix is
      first stored in the next slot, due or not; so none may be met when all slots are taken. */
  predicate SlotsSuffice(keys: seq<Key>, period: bv8) {
    forall i :: 0 <= i < |keys| && Mixes(keys[i]) ==> |Due(keys[..i], period)| < SLOTS
  }

  lemma SlotsFront(keys: seq<Key>, period: bv8)
    requires keys != []
    ensures var n := |keys| - 1;
            SlotsSuffice(keys, period)
            <==> SlotsSuffice(keys[..n], period) && (Mixes(keys[n]) ==> |Due(keys[..n], period)| < SLOTS)
  {
    hide Due, Mixes;
    var n := |keys| - 1;
    assert forall i :: 0 <= i < n ==> keys[..n][..i] == keys[..i] && keys[..n][i] == keys[i];
  }

  /** One more key. */
  lemma SlotsStep(keys: seq<Key>, i: nat, period: bv8)
    requires i < |keys|
    ensures SlotsSuffice(keys[..i + 1], period)
            <==> SlotsSuffice(keys[..i], period) && (Mixes(keys[i]) ==> |Due(keys[..i], period)| < SLOTS)
    ensures Due(keys[..i + 1], period)
         == Due(keys[..i], period) + if IsDue(keys[i], period) then [EventOf(keys[i])] else []
  {
    SlotsFront(keys[..i + 1], period);
    assert keys[..i + 1][..i] == keys[..i];
  }

  lemma NotMixedNotDue(k: Key, period: bv8)
    ensures IsDue(k, period) ==> Mixes(k)
  {
  }

  lemma SlotsBegin(keys: seq<Key>, period: bv8)
    ensures Due(keys[..0], period) == [] && SlotsSuffice(keys[..0], period)
  {
  }

  lemma SlotsOverrun(keys: seq<Key>, i: nat, period: bv8)
    requires i < |keys| && Mixes(keys[i]) && |Due(keys[..i], period)| >= SLOTS
    ensures !SlotsSuffice(keys, period)
  {
  }

  /** The number of keys that take part in the mix. */
  function Mixing(keys: seq<Key>): nat {
    if keys == [] then 0
    else Mixing(keys[..|keys| - 1]) + if Mixes(keys[|keys| - 1]) then 1 else 0
  }

  lemma {:induction false} DueAreMixing(keys: seq<Key>, period: bv8)
    ensures |Due(keys, period)| <= Mixing(keys)
    decreases |keys|
  {
    hide Has;
    if keys != [] {
      DueAreMixing(keys[..|keys| - 1], period);
    }
  }

  /** Up to as many mixing keys as there are slots never overrun them, in no period. */
  lemma {:induction false} FewKeysFit(keys: seq<Key>, period: bv8)
    requires Mixing(keys) <= SLOTS
    ensures SlotsSuffice(keys, period)
    decreases |keys|
  {
    if keys != [] {
      var n := |keys| - 1;
      FewKeysFit(keys[..n], period);
      DueAreMixing(keys[..n], period);
      SlotsFront(keys, period);
      hide SlotsSuffice, Due, Mixes;
    }
  }

  /** One more is too many: when all mixing keys are due, the slots suffice exactly up to that number. */
  lemma {:induction false} AllDueFitExactly(keys: seq<Key>, period: bv8)
    requires forall k :: k in keys && Mixes(k) ==> IsDue(k, period)
    ensures |Due(keys, period)| == Mixing(keys)
    ensures SlotsSuffice(keys, period) <==> Mixing(keys) <= SLOTS
    decreases |keys|
  {
    if keys != [] {
      var n := |keys| - 1;
      AllDueFitExactly(keys[..n], period);
      SlotsFront(keys, period);
      assert keys[n] in keys;
      hide SlotsSuffice;
    }
  }

  /** How the audio thread ends a period: it sends these events, or it has a queue to store behind the
      last slot, after which nothing is known. */
  datatype Sending = Sent(events: seq<Event>) | Overrun

  class CellAudio {
    var eventPeriod: bv8
    var keys: seq<Key>
    const eventSources: array<nat>
    const eventData3: array<nat>

    predicate Valid()
      reads this
    {
      Distinct(keys) && SlotArrays()
    }

    predicate SlotArrays() {
      eventSources.Length == eventData3.Length == SLOTS && eventSources != eventData3
    }

    constructor ()
      ensures Valid() && eventPeriod == 0 && keys == []
    {
      eventPeriod, keys := 0, [];
      eventSources, eventData3 := new nat[SLOTS], new nat[SLOTS];
    }

    /** The first `count` slots hold the parts of these events. */
    predicate Filled(queues: array<nat>, count: nat, events: seq<Event>)
      reads queues, eventSources, eventData3
      requires SlotArrays() && queues.Length == SLOTS
    {
      && count == |events| <= SLOTS
      && forall j :: 0 <= j < count ==> Event(queues[j], eventSources[j], eventData3[j]) == events[j]
    }

    /** Whether the time of a mixing key has come. */
    method TestDue(k: Key) returns (due: bool)
      requires Mixes(k)
      ensures due <==> IsDue(k, eventPeriod)
    {
      var periods: bv8 := 1;
      if Has(k.flags, DECIMATE_2) {
        periods := periods * 2;
      }
      if Has(k.flags, DECIMATE_4) {
        periods := periods * 4;
      }
      assert periods - 1 == Mask(k.flags);
      MaskedTest(k, eventPeriod);
      due := (eventPeriod ^ k.startPeriod) & (periods - 1) == 0;
    }

    method StoreSlot(queues: array<nat>, count: nat, k: Key, ghost events: seq<Event>)
      requires SlotArrays() && queues.Length == SLOTS && queues != eventSources && queues != eventData3
      requires count < SLOTS && Filled(queues, count, events)
      modifies queues, eventSources, eventData3
      ensures Filled(queues, count + 1, events + [EventOf(k)])
    {
      queues[count] := k.port;
      eventSources[count] := k.source;
      eventData3[count] := if Has(k.flags, BEFOREMIX) then k.source else 0;
      hide Has;
    }

    /** Collects the due queues in the slots, until a mixing key finds none left. */
    method FillSlots(queues: array<nat>) returns (ok: bool, count: nat)
      requires SlotArrays() && queues.Length == SLOTS && queues != eventSources && queues != eventData3
      modifies queues, eventSources, eventData3
      ensures ok <==> SlotsSuffice(keys, eventPeriod)
      ensures ok ==> Filled(queues, count, Due(keys, eventPeriod))
    {
      hide Due, SlotsSuffice, IsDue, EventOf;
      count := 0;
      SlotsBegin(keys, eventPeriod);
      for i := 0 to |keys|
        invariant Filled(queues, count, Due(keys[..i], eventPeriod)) && SlotsSuffice(keys[..i], eventPeriod)
      {
        var k := keys[i];
        SlotsStep(keys, i, eventPeriod);
        if Mixes(k) {
          if count == SLOTS {
            SlotsOverrun(keys, i, eventPeriod);
            return false, count;
          }
          var due := TestDue(k);
          if due {
            StoreSlot(queues, count, k, Due(keys[..i], eventPeriod));
            count := count + 1;
          }
        } else {
          NotMixedNotDue(k, eventPeriod);
        }
      }
      assert keys[..|keys|] == keys;
      ok := true;
    }

    /** The end of `advance`: the counter moves on, the due queues are collected and then sent to. */
    method Advance() returns (r: Sending)
      requires SlotArrays()
      modifies `eventPeriod, eventSources, eventData3
      ensures eventPeriod == Tick(old(eventPeriod))
      ensures r == if SlotsSuffice(keys, eventPeriod) then Sent(Due(keys, eventPeriod)) else Overrun
    {
      hide Due, SlotsSuffice;
      eventPeriod := eventPeriod + 1;
      var queues := new nat[SLOTS];
      var ok, count := FillSlots(queues);
      if !ok {
        return Overrun;
      }
      var events := [];
      ghost var due := Due(keys, eventPeriod);
      for i := 0 to count
        invariant eventPeriod == Tick(old(eventPeriod))
        invariant events == due[..i]
      {
        events := events + [Event(queues[i], eventSources[i], eventData3[i])];
      }
      r := Sent(events);
    }

    /** Registers a queue, unless it does not exist or has a key already. */
    method SetNotifyEventQueue(port: nat, flags: bv32, source: nat, alive: set<nat>) returns (status: Status)
      requires Valid()
      modifies `keys
      ensures Valid()
      ensures status.Success? <==> port in alive && !Registered(old(keys), port)
      ensures keys == AfterSet(State(eventPeriod, old(keys)), port, flags, source, alive)
    {
      if port !in alive {
        return TransEventError;
      }
      ghost var all := keys;
      SweptDistinct(all, port, alive);
      SweepBegins(all, port, alive);
      hide Swept, SweepAt, Distinct;
      var i := 0;
      while i < |keys|
        invariant SweepAt(keys, i, all, port, alive) && i <= |keys|
        decreases |keys| - i
      {
        SweepStep(keys, i, all, port, alive);
        if keys[i].port == port {
          return TransEventError;
        }
        if keys[i].port !in alive {
          keys := keys[..i] + keys[i + 1..];
        } else {
          i := i + 1;
        }
      }
      SweepEnds(keys, all, port, alive);
      DistinctMore(keys, Key(eventPeriod, flags, source, port));
      keys := keys + [Key(eventPeriod, flags, source, port)];
      return Success;
    }

    /** Removes the key of a queue. */
    method RemoveNotifyEventQueue(port: nat, flags: bv32, alive: set<nat>) returns (status: Status)
      requires Valid()
      modifies `keys
      ensures Valid()
      ensures status.Success? <==> CanRemove(old(keys), port, flags, alive)
      ensures keys == Removed(old(keys), port, flags, alive)
    {
      RemovedDistinct(keys, port, flags, alive);
      ghost var all := keys;
      RemovalBegins(all, port, flags, alive);
      hide Removed, RemovalAt, Distinct, CanRemove;
      var i := 0;
      while i < |keys|
        invariant keys == all && 0 <= i <= |keys| && RemovalAt(all, i, port, flags, alive)
      {
        if keys[i].port in alive && keys[i].port == port {
          RemovalHits(all, i, port, flags, alive);
          if keys[i].flags != flags {
            OtherFlags(keys, i, flags, alive);
            return TransEventError;
          }
          keys := keys[..i] + keys[i + 1..];
          return Success;
        }
        RemovalPasses(all, i, port, flags, alive);
        i := i + 1;
      }
      RemovalEnds(all, port, flags, alive);
      return TransEventError;
    }
  }

  // ---- runs

  datatype State = State(period: bv8, keys: seq<Key>)

  datatype Op =
    | AdvanceOp
    | SetOp(port: nat, flags: bv32, source: nat, alive: set<nat>)
    | RemoveOp(port: nat, flags: bv32, alive: set<nat>)

  ghost function AfterSet(s: State, port: nat, flags: bv32, source: nat, alive: set<nat>): seq<Key> {
    if port !in alive then s.keys
    else if Registered(s.keys, port) then Swept(s.keys, port, alive)
    else Swept(s.keys, port, alive) + [Key(s.period, flags, source, port)]
  }

  ghost function Apply(s: State, op: Op): State {
    match op
    case AdvanceOp => s.(period := Tick(s.period))
    case SetOp(port, flags, source, alive) => s.(keys := AfterSet(s, port, flags, source, alive))
    case RemoveOp(port, flags, alive) => s.(keys := Removed(s.keys, port, flags, alive))
  }

  ghost function Run(s: State, ops: seq<Op>): State {
    if ops == [] then s else Apply(Run(s, ops[..|ops| - 1]), ops[|ops| - 1])
  }

  function CountFor(events: seq<Event>, port: nat): nat {
    if events == [] then 0
    else CountFor(events[..|events| - 1], port) + if events[|events| - 1].port == port then 1 else 0
  }

  /** No period of the run overruns the slots. */
  ghost predicate InSlots(s: State, ops: seq<Op>) {
    ops == []
    || (InSlots(s, ops[..|ops| - 1])
        && (ops[|ops| - 1].AdvanceOp? ==> SlotsSuffice(Run(s, ops).keys, Run(s, ops).period)))
  }

  /** Never more than 64 mixing keys registered at once is enough. */
  lemma {:induction false} FewKeysStayInSlots(s: State, ops: seq<Op>)
    requires forall n :: 0 <= n <= |ops| ==> Mixing(Run(s, ops[..n]).keys) <= SLOTS
    ensures InSlots(s, ops)
    decreases |ops|
  {
    hide Run, Mixing, SlotsSuffice;
    if ops != [] {
      var front := ops[..|ops| - 1];
      assert forall n :: 0 <= n <= |front| ==> front[..n] == ops[..n];
      FewKeysStayInSlots(s, front);
      assert ops[..|ops|] == ops;
      FewKeysFit(Run(s, ops).keys, Run(s, ops).period);
    }
  }

  /** Number of events a queue receives in a run, and number of mixing periods in it. */
  ghost function Received(s: State, ops: seq<Op>, port: nat): nat
    requires InSlots(s, ops)
    decreases |ops|
  {
    if ops == [] then 0
    else
      var n := |ops| - 1;
      var t := Run(s, ops);
      Received(s, ops[..n], port) + if ops[n].AdvanceOp? then CountFor(Due(t.keys, t.period), port) else 0
  }

  function Advances(ops: seq<Op>): nat {
    if ops == [] then 0
    else Advances(ops[..|ops| - 1]) + if ops[|ops| - 1].AdvanceOp? then 1 else 0
  }

  /** The queue of `k` stays alive and nobody removes its key. */
  predicate Spares(op: Op, k: Key) {
    match op
    case AdvanceOp => true
    case SetOp(_, _, _, alive) => k.port in alive
    case RemoveOp(port, flags, _) => !(port == k.port && flags == k.flags)
  }

  lemma {:induction false} NoneForStrangers(keys: seq<Key>, period: bv8, port: nat)
    requires forall k :: k in keys ==> k.port != port
    ensures CountFor(Due(keys, period), port) == 0
    decreases |keys|
  {
    hide IsDue;
    if keys != [] {
      var n := |keys| - 1;
      NoneForStrangers(keys[..n], period, port);
      OneMoreEvent(keys, period, port);
    }
  }

  lemma OneMoreEvent(keys: seq<Key>, period: bv8, port: nat)
    requires keys != []
    ensures
      var n := |keys| - 1;
      CountFor(Due(keys, period), port)
      == CountFor(Due(keys[..n], period), port) + if IsDue(keys[n], period) && keys[n].port == port then 1 else 0
  {
    hide IsDue;
    var n := |keys| - 1;
    var events := Due(keys, period);
    var before := Due(keys[..n], period);
    if IsDue(keys[n], period) {
      assert events == before + [EventOf(keys[n])];
      assert events[..|events| - 1] == before;
    } else {
      assert events == before;
    }
  }

  /** Each queue has one key, so that it receives at most one event a period, when that key is due. */
  lemma {:induction false} OneEventAPeriod(keys: seq<Key>, period: bv8, k: Key)
    requires Distinct(keys) && k in keys
    ensures CountFor(Due(keys, period), k.port) == if IsDue(k, period) then 1 else 0
    decreases |keys|
  {
    hide IsDue;
    var n := |keys| - 1;
    OneMoreEvent(keys, period, k.port);
    if keys[n] == k {
      NoneForStrangers(keys[..n], period, k.port);
    } else {
      assert k in keys[..n];
      OneEventAPeriod(keys[..n], period, k);
    }
  }

  lemma SetKeeps(s: State, port: nat, flags: bv32, source: nat, alive: set<nat>)
    requires Distinct(s.keys)
    ensures Distinct(AfterSet(s, port, flags, source, alive))
    ensures forall k :: k in s.keys && k.port in alive ==> k in AfterSet(s, port, flags, source, alive)
  {
    SweptKeeps(s.keys, port, alive);
    SweptDistinct(s.keys, port, alive);
    if port in alive && !Registered(s.keys, port) {
      DistinctMore(Swept(s.keys, port, alive), Key(s.period, flags, source, port));
    }
  }

  lemma {:induction false} RunKeepsKey(s: State, ops: seq<Op>, k: Key)
    requires Distinct(s.keys) && k in s.keys && forall i :: 0 <= i < |ops| ==> Spares(ops[i], k)
    ensures Distinct(Run(s, ops).keys) && k in Run(s, ops).keys
    ensures Run(s, ops).period == After(s.period, Advances(ops))
    decreases |ops|
  {
    hide Tick, Distinct, Apply, Spares;
    if ops != [] {
      var n := |ops| - 1;
      RunKeepsKey(s, ops[..n], k);
      var t := Run(s, ops[..n]);
      var op := ops[n];
      assert Spares(op, k);
      ApplyKeepsKey(t, op, k);
      assert Run(s, ops) == Apply(t, op);
    }
  }

  lemma ApplyKeepsKey(s: State, op: Op, k: Key)
    requires Distinct(s.keys) && k in s.keys && Spares(op, k)
    ensures Distinct(Apply(s, op).keys) && k in Apply(s, op).keys
    ensures Apply(s, op).period == if op.AdvanceOp? then Tick(s.period) else s.period
  {
    hide Tick, Distinct, Swept, Removed;
    match op
    case AdvanceOp =>
    case SetOp(port, flags, source, alive) => SetKeeps(s, port, flags, source, alive);
    case RemoveOp(port, flags, alive) =>
      RemovedKeeps(s.keys, port, flags, alive);
      RemovedDistinct(s.keys, port, flags, alive);
  }

  lemma {:induction false} ReceivedIsDueCount(s: State, ops: seq<Op>, k: Key)
    requires InSlots(s, ops) && Distinct(s.keys) && k in s.keys && forall i :: 0 <= i < |ops| ==> Spares(ops[i], k)
    ensures Received(s, ops, k.port) == DueCount(k, s.period, Advances(ops))
    decreases |ops|
  {
    hide Tick, Distinct, IsDue, Run, After, SlotsSuffice;
    if ops != [] {
      var n := |ops| - 1;
      ReceivedIsDueCount(s, ops[..n], k);
      RunKeepsKey(s, ops, k);
      if ops[n].AdvanceOp? {
        var t := Run(s, ops);
        OneEventAPeriod(t.keys, t.period, k);
      }
    }
  }

  /** A mixing key that has just been registered with `p` periods receives, over any run within the
      slots in which it stays registered while others come and go, one event for every `p` periods. */
  lemma EventsOverRun(s: State, ops: seq<Op>, k: Key)
    requires InSlots(s, ops) && Distinct(s.keys) && k in s.keys && k.startPeriod == s.period && !Has(k.flags, NOMIX)
    requires forall i :: 0 <= i < |ops| ==> Spares(ops[i], k)
    ensures Received(s, ops, k.port) == Advances(ops) / Periods(k.flags)
  {
    ReceivedIsDueCount(s, ops, k);
    DueCountIs(k, Advances(ops));
  }

  // ---- in terms of the flag bits

  lemma PeriodsByBits(flags: bv32)
    ensures flags & 0x1800_0000 == 0 ==> Periods(flags) == 1
    ensures flags & 0x1800_0000 == 0x0800_0000 ==> Periods(flags) == 2
    ensures flags & 0x1800_0000 == 0x1000_0000 ==> Periods(flags) == 4
    ensures flags & 0x1800_0000 == 0x1800_0000 ==> Periods(flags) == 8
    ensures Has(flags, NOMIX) <==> flags & 0x4000_0000 != 0
    ensures Has(flags, BEFOREMIX) <==> flags & 0x8000_0000 != 0
  {
  }

  /** The events of a period name the queue and the source of each due key, the source a second time for
      events before the mix. */
  lemma {:induction false} DueNamesTheKeys(keys: seq<Key>, period: bv8)
    ensures forall k :: k in keys && IsDue(k, period) ==>
              Event(k.port, k.source, if k.flags & 0x8000_0000 != 0 then k.source else 0) in Due(keys, period)
    decreases |keys|
  {
    if keys != [] {
      var n := |keys| - 1;
      DueNamesTheKeys(keys[..n], period);
      PeriodsByBits(keys[n].flags);
      hide IsDue, Has;
      assert forall k :: k in keys ==> k == keys[n] || k in keys[..n];
    }
  }

  /** A key that has just been registered receives, over any run within the slots in which it stays
      registered, an event each period, or every second, fourth or eighth. */
  lemma EventsByBits(s: State, ops: seq<Op>, k: Key)
    requires InSlots(s, ops) && Distinct(s.keys) && k in s.keys && k.startPeriod == s.period
    requires k.flags & 0x4000_0000 == 0
    requires forall i :: 0 <= i < |ops| ==> Spares(ops[i], k)
    ensures k.flags & 0x1800_0000 == 0 ==> Received(s, ops, k.port) == Advances(ops)
    ensures k.flags & 0x1800_0000 == 0x0800_0000 ==> Received(s, ops, k.port) == Advances(ops) / 2
    ensures k.flags & 0x1800_0000 == 0x1000_0000 ==> Received(s, ops, k.port) == Advances(ops) / 4
    ensures k.flags & 0x1800_0000 == 0x1800_0000 ==> Received(s, ops, k.port) == Advances(ops) / 8
  {
    PeriodsByBits(k.flags);
    hide Periods, Has, InSlots, Received, Advances, Spares, Distinct;
    EventsOverRun(s, ops, k);
  }

  /** Registering puts the key last and starts its count at the current period. */
  lemma SetAddsKey(s: State, port: nat, flags: bv32, source: nat, alive: set<nat>)
    requires Distinct(s.keys) && port in alive && !Registered(s.keys, port)
    ensures var t, k := Apply(s, SetOp(port, flags, source, alive)), Key(s.period, flags, source, port);
            && t.period == s.period && t.keys == Living(s.keys, alive) + [k] && k in t.keys && Distinct(t.keys)
  {
    forall j | 0 <= j < |s.keys| ensures s.keys[j].port != port {
      assert s.keys[j] in s.keys;
    }
    SweptExactly(s.keys, port, alive, |s.keys|);
    assert s.keys[..|s.keys|] == s.keys && Living(s.keys, alive) + [] == Living(s.keys, alive);
    SetKeeps(s, port, flags, source, alive);
    hide Swept, Distinct;
  }

  lemma {:induction false} RunAfter(s: State, op: Op, ops: seq<Op>)
    ensures Run(s, [op] + ops) == Run(Apply(s, op), ops)
    decreases |ops|
  {
    hide Apply;
    var all := [op] + ops;
    if ops == [] {
      assert all == [op] && all[..0] == [];
    } else {
      assert all[..|all| - 1] == [op] + ops[..|ops| - 1];
      RunAfter(s, op, ops[..|ops| - 1]);
    }
  }

  lemma {:induction false} ReceivedAfter(s: State, op: Op, ops: seq<Op>, port: nat)
    requires !op.AdvanceOp?
    ensures InSlots(s, [op] + ops) <==> InSlots(Apply(s, op), ops)
    ensures InSlots(s, [op] + ops) ==> Received(s, [op] + ops, port) == Received(Apply(s, op), ops, port)
    decreases |ops|
  {
    hide Apply, Run, SlotsSuffice, CountFor, Due;
    var all := [op] + ops;
    RunAfter(s, op, ops);
    if ops == [] {
      assert all == [op] && all[..0] == [];
    } else {
      assert all[..|all| - 1] == [op] + ops[..|ops| - 1];
      ReceivedAfter(s, op, ops[..|ops| - 1], port);
    }
  }

  /** From the registration on. */
  lemma RegisteredReceives(s: State, port: nat, flags: bv32, source: nat, alive: set<nat>, ops: seq<Op>)
    requires Distinct(s.keys) && port in alive && !Registered(s.keys, port) && flags & 0x4000_0000 == 0
    requires InSlots(s, [SetOp(port, flags, source, alive)] + ops)
    requires forall i :: 0 <= i < |ops| ==> Spares(ops[i], Key(s.period, flags, source, port))
    ensures var n, all := Advances(ops), [SetOp(port, flags, source, alive)] + ops;
            && (flags & 0x1800_0000 == 0 ==> Received(s, all, port) == n)
            && (flags & 0x1800_0000 == 0x0800_0000 ==> Received(s, all, port) == n / 2)
            && (flags & 0x1800_0000 == 0x1000_0000 ==> Received(s, all, port) == n / 4)
            && (flags & 0x1800_0000 == 0x1800_0000 ==> Received(s, all, port) == n / 8)
  {
    hide Apply, InSlots, Received, Advances, Spares, Distinct, Registered, Living;
    var op := SetOp(port, flags, source, alive);
    SetAddsKey(s, port, flags, source, alive);
    ReceivedAfter(s, op, ops, port);
    EventsByBits(Apply(s, op), ops, Key(s.period, flags, source, port));
  }
}
