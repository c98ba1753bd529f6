/** The free helpers of `struct util`: the two Euclid loops, the
    power-of-two table scan, status-code translation, file extensions,
    splitting a command line into a key/value map and `map_of`. */
module Util {
  import opened Cl

  /** `POWER_TWO_MAX`: the length of `util::power_2_arr`. */
  const PowerTwoMax: nat := 20

  // ---------------------------------------------------------------------
  // euclidean_gcd

  /** What `euclidean_gcd` returns. Line 73 reduces `b` modulo itself, so a
      round with `a <= b` only clears `b`, and at most one real Euclid step
      is ever taken. */
  function GcdAsWritten(a: nat, b: nat): nat
  {
    if a == 0 || b == 0 then a + b
    else if a > b then (if a % b == 0 then b else a % b)
    else a
  }

  /** For a positive first argument the result is positive and at most it. */
  lemma GcdAsWrittenBounds(a: nat, b: nat)
    requires a > 0
    ensures 0 < GcdAsWritten(a, b) <= a
  {
  }

  /** Rounds of the loop still to come from state (a, b). */
  function RoundsLeft(a: nat, b: nat): nat
  {
    if a != 0 && b != 0 then (if a > b then 2 else 1) else 0
  }

  /** `util::euclidean_gcd`, loop as written. `rounds` counts the iterations. */
  method EuclideanGcd(a0: nat, b0: nat) returns (g: nat, ghost rounds: nat)
    ensures g == GcdAsWritten(a0, b0)
    ensures rounds <= 2
    ensures a0 > 0 && b0 > 0 ==> 0 < g <= a0
    ensures a0 == 0 || b0 == 0 ==> g == a0 + b0
  {
    var a: nat, b: nat := a0, b0;
    rounds := 0;
    while a != 0 && b != 0
      invariant GcdAsWritten(a, b) == GcdAsWritten(a0, b0)
      invariant rounds + RoundsLeft(a, b) <= 2
      decreases RoundsLeft(a, b)
    {
      if a > b { a := a % b; } else { b := b % b; }
      rounds := rounds + 1;
    }
    g := a + b;
  }

  /** Euclid's algorithm as evidently intended (`b %= a` on line 73). */
  function Gcd(a: nat, b: nat): nat
    decreases b
  {
    if b == 0 then a else Gcd(b, a % b)
  }

  /** Any multiple of d is divisible by d. */
  lemma MulMod(d: int, m: int)
    requires d > 0
    ensures (d * m) % d == 0
  {
    var q, r := (d * m) / d, (d * m) % d;
    assert d * m == d * q + r;
    assert r == d * (m - q);
    MulBounds(d, m - q);
  }

  lemma MulBounds(d: int, k: int)
    requires d > 0
    ensures k >= 1 ==> d * k >= d
    ensures k <= -1 ==> d * k <= -d
  {
  }

  /** Divisibility by d is closed under x + y * k. */
  lemma ModLinear(x: int, y: int, k: int, d: int)
    requires d > 0 && x % d == 0 && y % d == 0
    ensures (x + y * k) % d == 0
  {
    var i, j := x / d, y / d;
    assert x == d * i;
    assert y == d * j;
    assert x + y * k == d * (i + j * k);
    MulMod(d, i + j * k);
  }

  /** Gcd(a, b) divides both arguments and is positive unless both are 0. */
  lemma {:induction false} GcdDividesBoth(a: nat, b: nat)
    ensures Gcd(a, b) == 0 <==> a == 0 && b == 0
    ensures Gcd(a, b) > 0 ==> a % Gcd(a, b) == 0 && b % Gcd(a, b) == 0
    decreases b
  {
    if b == 0 {
      if a > 0 { MulMod(a, 1); }
    } else {
      GcdDividesBoth(b, a % b);
      var g := Gcd(b, a % b);
      assert a == (a % b) + b * (a / b);
      ModLinear(a % b, b, a / b, g);
    }
  }

  /** For a positive first argument Gcd is positive and at most it. */
  lemma GcdAtMost(a: nat, b: nat)
    requires a > 0
    ensures 0 < Gcd(a, b) <= a
  {
    GcdDividesBoth(a, b);
    var g := Gcd(a, b);
    var q := a / g;
    assert a == g * q && q >= 0;
    assert q != 0;
    MulBounds(g, q);
  }

  /** Every common divisor of a and b divides Gcd(a, b). */
  lemma {:induction false} GcdGreatest(a: nat, b: nat, d: int)
    requires d > 0 && a % d == 0 && b % d == 0
    ensures Gcd(a, b) % d == 0
    decreases b
  {
    if b != 0 {
      assert a % b == a + b * -(a / b);
      ModLinear(a, b, -(a / b), d);
      GcdGreatest(b, a % b, d);
    }
  }

  /** The source's result is not a common divisor: for (2, 3) it returns 2,
      which does not divide 3, while the true gcd is 1. */
  lemma GcdAsWrittenCounterexample()
    ensures GcdAsWritten(2, 3) == 2 && 3 % GcdAsWritten(2, 3) != 0
    ensures Gcd(2, 3) == 1
    ensures GcdAsWritten(7, 5) == 2 && Gcd(7, 5) == 1
  {
  }

  // ---------------------------------------------------------------------
  // next_power

  /** `util::next_power` over the table `util::power_2_arr`: the first entry
      at least `val`, else the "Too large number" exception. */
  method NextPower(table: seq<int>, val: int) returns (r: Result<int>)
    requires |table| == PowerTwoMax
    ensures r.Ok? <==> exists i :: 0 <= i < |table| && table[i] >= val
    ensures r.Ok? ==> exists i :: 0 <= i < |table| && table[i] == r.value && r.value >= val &&
                               forall j :: 0 <= j < i ==> table[j] < val
    ensures r.Err? ==> r.msg == "Too large number"
  {
    var index := 0;
    while index < PowerTwoMax
      invariant 0 <= index <= PowerTwoMax
      invariant forall j :: 0 <= j < index ==> table[j] < val
    {
      if table[index] >= val { return Ok(table[index]); }
      index := index + 1;
    }
    return Err("Too large number");
  }

  /** The table the program has: `util::power_2_arr` is defined at
      util.cpp:3 with no initialiser and nothing writes to it, so as a
      static array it holds zeros. */
  const UnfilledPowers: seq<int> := seq(PowerTwoMax, _ => 0)

  /** `next_power` over that table: 0 for any `val` up to 0, and the
      "Too large number" exception for every positive `val`. */
  method NextPowerUnfilled(val: int) returns (r: Result<int>)
    ensures val <= 0 ==> r == Ok(0)
    ensures val >= 1 ==> r == Err("Too large number")
  {
    r := NextPower(UnfilledPowers, val);
    if val <= 0 {
      assert UnfilledPowers[0] >= val;
    }
  }

  /** Were the table filled with 1, 2, 4, ..., 2^19, which the source never
      does, the scan would return the least power of two at least val. */
  lemma PowersTableGivesLeastPower(val: int, k: nat)
    requires k < PowerTwoMax && Pow2(k) >= val && (k == 0 || Pow2(k - 1) < val)
    ensures var table := seq(PowerTwoMax, i requires 0 <= i => Pow2(i));
            table[k] >= val && forall j :: 0 <= j < k ==> table[j] < val
  {
    var table := seq(PowerTwoMax, i requires 0 <= i => Pow2(i));
    forall j | 0 <= j < k ensures table[j] < val {
      Pow2Monotone(j, k - 1);
    }
  }

  lemma {:induction false} Pow2Monotone(i: nat, j: nat)
    requires i <= j
    ensures Pow2(i) <= Pow2(j)
    decreases j
  {
    if i < j { Pow2Monotone(i, j - 1); }
  }

  // ---------------------------------------------------------------------
  // assert_success

  const ClSuccess: int := 0

  /** The OpenCL status codes `assert_success` names, with their text. */
  const Categories: map<int, string> := map[
    -51 := "invalid arg size",
    -50 := "invalid arg value",
    -36 := "invalid queue",
    -34 := "invalid context",
    -33 := "invalid device",
    -37 := "invalid host ptr",
    -65 := "invalid image descriptor",
    -39 := "invalid image format descriptor",
    -40 := "invalid image size",
    -48 := "invalid kernel",
    -52 := "invalid kernel args",
    -38 := "invalid mem object",
    -59 := "invalid operation",
    -32 := "invalid platform",
    -44 := "invalid program",
    -41 := "invalid sampler",
    -30 := "invalid value",
    -4 := "mem object allocation failure",
    -6 := "out of host memory",
    -5 := "out of resources"
  ]

  /** The `switch` of `assert_success`: an unlisted code leaves the text empty. */
  function Category(code: int): (c: string)
    ensures c == "" <==> code !in Categories
  {
    if code in Categories then Categories[code] else ""
  }

  /** `util::assert_success`: returns iff the code is `CL_SUCCESS`,
      otherwise throws `message (category)`. */
  function AssertSuccess(code: int, message: string): (r: Outcome)
    ensures r.Pass? <==> code == ClSuccess
    ensures r.Fail? ==> r.msg == message + " (" + Category(code) + ")"
    ensures r.Fail? ==> |r.msg| > |message| && r.msg[..|message|] == message
  {
    if code == ClSuccess then Pass else Fail(message + " (" + Category(code) + ")")
  }

  /** Distinct listed codes are reported with distinct texts. */
  lemma CategoriesDistinct(a: int, b: int)
    requires a in Categories && b in Categories && a != b
    ensures Category(a) != Category(b)
  {
  }

  // ---------------------------------------------------------------------
  // file_ext

  /** `find_last_of('.')`, -1 standing for `npos`. */
  function LastDot(s: string): (r: int)
    ensures -1 <= r < |s|
    ensures r >= 0 ==> s[r] == '.'
    ensures forall j :: r < j < |s| ==> s[j] != '.'
  {
    if |s| == 0 then -1
    else if s[|s| - 1] == '.' then |s| - 1
    else LastDot(s[..|s| - 1])
  }

  /** `util::file_ext`: the suffix from the last '.'. Without a '.' the
      source's `substr(npos, ...)` throws `std::out_of_range`. */
  function FileExt(filename: string): (r: Result<string>)
    ensures r.Ok? <==> '.' in filename
    ensures r.Ok? ==> |r.value| >= 1 && r.value[0] == '.' && '.' !in r.value[1..]
    ensures r.Ok? ==> |r.value| <= |filename| && filename == filename[..|filename| - |r.value|] + r.value
    ensures r.Err? ==> r.msg == "basic_string::substr"
  {
    var point := LastDot(filename);
    if point < 0 then Err("basic_string::substr") else Ok(filename[point..])
  }

  // ---------------------------------------------------------------------
  // next_action: splitting one command line

  /** `command`: key to value. */
  type Command = map<string, string>

  /** One item after the command name: a flag and the token after it, or a
      free argument. */
  datatype Token = Flag(key: string, value: string) | Free(value: string)

  predicate IsFlag(t: string) { |t| > 0 && t[0] == '-' }

  /** Every flag has a token after it (the source reads `seq[p + 1]`
      unchecked). */
  predicate Pairable(ts: seq<string>)
    decreases |ts|
  {
    |ts| == 0 || (if IsFlag(ts[0]) then |ts| >= 2 && Pairable(ts[2..]) else Pairable(ts[1..]))
  }

  /** How the loop of `next_action` reads the tokens after the first. */
  function Group(ts: seq<string>): seq<Token>
    requires Pairable(ts)
    decreases |ts|
  {
    if |ts| == 0 then []
    else if IsFlag(ts[0]) then [Flag(ts[0], ts[1])] + Group(ts[2..])
    else [Free(ts[0])] + Group(ts[1..])
  }

  function Ungroup(items: seq<Token>): seq<string>
  {
    if |items| == 0 then []
    else (match items[0]
          case Flag(k, v) => [k, v]
          case Free(v) => [v]) + Ungroup(items[1..])
  }

  /** Grouping loses and invents no token. */
  lemma {:induction false} GroupUngroup(ts: seq<string>)
    requires Pairable(ts)
    ensures Ungroup(Group(ts)) == ts
    decreases |ts|
  {
    if |ts| > 0 {
      if IsFlag(ts[0]) {
        GroupUngroup(ts[2..]);
        assert ts == [ts[0], ts[1]] + ts[2..];
      } else {
        GroupUngroup(ts[1..]);
        assert ts == [ts[0]] + ts[1..];
      }
    }
  }

  /** The key of the n-th free argument: "arg" and the character n places
      after '0'; the counter is one byte. */
  function ArgKey(n: nat): string
  {
    "arg" + [((48 + n) % 256) as char]
  }

  /** `unordered_map::emplace`: an existing key keeps its value. */
  function Emplace(m: Command, k: string, v: string): Command
  {
    if k in m then m else m[k := v]
  }

  /** The map after emplacing the items in order, `n` free arguments
      having already been numbered. */
  function Insert(items: seq<Token>, m: Command, n: nat): Command
    decreases |items|
  {
    if |items| == 0 then m
    else match items[0]
      case Flag(k, v) => Insert(items[1..], Emplace(m, k, v), n)
      case Free(v) => Insert(items[1..], Emplace(m, ArgKey(n), v), n + 1)
  }

  /** The token splitting inside `util::next_action` for one non-empty line. */
  method NextAction(ts: seq<string>) returns (cmd: Command)
    requires |ts| > 0 && Pairable(ts[1..])
    ensures cmd == Insert(Group(ts[1..]), map["exe" := ts[0]], 0)
  {
    cmd := map["exe" := ts[0]];
    var freeArg: nat := 0;
    var p := 1;
    while p < |ts|
      invariant 1 <= p <= |ts| && Pairable(ts[p..])
      invariant Insert(Group(ts[p..]), cmd, freeArg) == Insert(Group(ts[1..]), map["exe" := ts[0]], 0)
    {
      if IsFlag(ts[p]) {
        assert ts[p..][2..] == ts[p + 2..];
        cmd := Emplace(cmd, ts[p], ts[p + 1]);
        p := p + 1;
      } else {
        assert ts[p..][1..] == ts[p + 1..];
        cmd := Emplace(cmd, ArgKey(freeArg), ts[p]);
        freeArg := freeArg + 1;
      }
      p := p + 1;
    }
  }

  /** A key already present survives every later emplace. */
  lemma {:induction false} InsertKeeps(items: seq<Token>, m: Command, n: nat, k: string)
    requires k in m
    ensures k in Insert(items, m, n) && Insert(items, m, n)[k] == m[k]
    decreases |items|
  {
    if |items| > 0 {
      match items[0]
      case Flag(k', v) => InsertKeeps(items[1..], Emplace(m, k', v), n, k);
      case Free(v) => InsertKeeps(items[1..], Emplace(m, ArgKey(n), v), n + 1, k);
    }
  }

  /** The first token of a line is stored under "exe". */
  lemma ExeIsFirstToken(ts: seq<string>)
    requires |ts| > 0 && Pairable(ts[1..])
    ensures var cmd := Insert(Group(ts[1..]), map["exe" := ts[0]], 0);
            "exe" in cmd && cmd["exe"] == ts[0]
  {
    InsertKeeps(Group(ts[1..]), map["exe" := ts[0]], 0, "exe");
  }

  /** Every flag item's key is a flag. */
  predicate FlagKeys(items: seq<Token>)
  {
    forall j :: 0 <= j < |items| && items[j].Flag? ==> IsFlag(items[j].key)
  }

  lemma {:induction false} GroupFlagKeys(ts: seq<string>)
    requires Pairable(ts)
    ensures FlagKeys(Group(ts))
    decreases |ts|
  {
    if |ts| > 0 {
      if IsFlag(ts[0]) { GroupFlagKeys(ts[2..]); } else { GroupFlagKeys(ts[1..]); }
    }
  }

  function FreeCount(items: seq<Token>): nat
  {
    if |items| == 0 then 0 else (if items[0].Free? then 1 else 0) + FreeCount(items[1..])
  }

  /** A repeated flag keeps the value of its first occurrence. */
  lemma {:induction false} FirstFlagWins(items: seq<Token>, m: Command, n: nat, i: nat)
    requires i < |items| && items[i].Flag? && items[i].key !in m && FlagKeys(items)
    requires forall j :: 0 <= j < i ==> !(items[j].Flag? && items[j].key == items[i].key)
    ensures var r := Insert(items, m, n);
            items[i].key in r && r[items[i].key] == items[i].value
    decreases |items|
  {
    var k := items[i].key;
    if i == 0 {
      InsertKeeps(items[1..], Emplace(m, k, items[0].value), n, k);
    } else {
      match items[0]
      case Flag(k', v) =>
        FirstFlagWins(items[1..], Emplace(m, k', v), n, i - 1);
      case Free(v) =>
        assert ArgKey(n)[0] != k[0];
        FirstFlagWins(items[1..], Emplace(m, ArgKey(n), v), n + 1, i - 1);
    }
  }

  /** Free arguments are numbered in order: the free item with j free items
      before it is stored under `arg<j>` (while the one-byte counter has not
      wrapped). */
  lemma {:induction false} FreeArgsNumbered(items: seq<Token>, m: Command, n: nat, i: nat)
    requires i < |items| && items[i].Free? && FlagKeys(items)
    requires n + FreeCount(items) <= 256
    requires forall j :: n <= j < n + FreeCount(items) ==> ArgKey(j) !in m
    ensures var r := Insert(items, m, n);
            var key := ArgKey(n + FreeCount(items[..i]));
            key in r && r[key] == items[i].value
    decreases |items|
  {
    if i == 0 {
      assert items[..0] == [];
      InsertKeeps(items[1..], Emplace(m, ArgKey(n), items[0].value), n + 1, ArgKey(n));
    } else {
      assert items[1..][..i - 1] == items[..i][1..];
      match items[0]
      case Flag(k, v) =>
        FlagKeepsFresh(m, k, v, n, n + FreeCount(items[1..]));
        FreeArgsNumbered(items[1..], Emplace(m, k, v), n, i - 1);
      case Free(v) =>
        FreeKeepsFresh(m, n, v, n + 1 + FreeCount(items[1..]));
        FreeArgsNumbered(items[1..], Emplace(m, ArgKey(n), v), n + 1, i - 1);
    }
  }

  /** Emplacing a flag key leaves every `arg` key absent. */
  lemma FlagKeepsFresh(m: Command, k: string, v: string, lo: nat, hi: nat)
    requires IsFlag(k) && forall j :: lo <= j < hi ==> ArgKey(j) !in m
    ensures forall j :: lo <= j < hi ==> ArgKey(j) !in Emplace(m, k, v)
  {
    forall j | lo <= j < hi ensures ArgKey(j) !in Emplace(m, k, v) {
      assert ArgKey(j)[0] != k[0];
    }
  }

  /** Emplacing `arg<n>` leaves the later `arg` keys absent, below the wrap. */
  lemma FreeKeepsFresh(m: Command, n: nat, v: string, hi: nat)
    requires hi <= 256 && forall j :: n <= j < hi ==> ArgKey(j) !in m
    ensures forall j :: n + 1 <= j < hi ==> ArgKey(j) !in Emplace(m, ArgKey(n), v)
  {
    forall j | n + 1 <= j < hi ensures ArgKey(j) !in Emplace(m, ArgKey(n), v) {
      assert ArgKey(j) != ArgKey(n) by { assert ArgKey(j)[3] != ArgKey(n)[3]; }
    }
  }

  // ---------------------------------------------------------------------
  // map_of

  /** The distinct entries of a list of names. */
  function KeysOf<K>(names: seq<K>): set<K>
  {
    set n | n in names
  }

  /** `util::map_of`: every listed kernel name mapped to `NULL`. */
  method MapOf<K>(names: seq<K>) returns (m: map<K, Handle<K>>)
    ensures m.Keys == KeysOf(names)
    ensures forall n :: n in m ==> m[n] == Null
  {
    m := map[];
    var i := 0;
    while i < |names|
      invariant 0 <= i <= |names|
      invariant m.Keys == set n | n in names[..i]
      invariant forall n :: n in m ==> m[n] == Null
    {
      assert names[..i + 1] == names[..i] + [names[i]];
      m := m[names[i] := Null];
      i := i + 1;
    }
    assert names[..i] == names;
  }
}
