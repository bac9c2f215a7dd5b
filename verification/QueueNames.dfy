/** Queue file names: printing, parsing, and why sorting them is FIFO order. */
module QueueNames {
  import opened Records
  import P = Pipeline
  import I = Interleaving

  const U64_LIMIT: nat := 18446744073709551616

  // ---- printing ----

  const DIGITS: string := "0123456789"

  predicate IsDigit(c: char) { '0' <= c <= '9' }

  predicate IsHexDigit(c: char) { IsDigit(c) || 'a' <= c <= 'f' || 'A' <= c <= 'F' }

  predicate IsHash(h: string) { |h| == 64 && forall k :: 0 <= k < |h| ==> IsHexDigit(h[k]) }

  function Pow10(w: nat): nat { if w == 0 then 1 else 10 * Pow10(w - 1) }

  /** The last `w` decimal digits of `n`. */
  function Digits(n: nat, w: nat): (s: string)
    ensures |s| == w && forall k :: 0 <= k < |s| ==> IsDigit(s[k])
  {
    if w == 0 then "" else Digits(n / 10, w - 1) + [DIGITS[n % 10]]
  }

  /** `{seq:020}_{hash}.json`; 20 digits hold every u64. */
  function FileNameFor(seqno: nat, hash: string): string { Digits(seqno, 20) + "_" + hash + ".json" }

  // ---- parsing ----

  function StripSuffix(s: string, suffix: string): Option<string> {
    if |s| >= |suffix| && s[|s| - |suffix|..] == suffix then Some(s[..|s| - |suffix|]) else None
  }

  function SplitOnce(s: string, c: char): Option<(string, string)> {
    if s == "" then None
    else if s[0] == c then Some(("", s[1..]))
    else match SplitOnce(s[1..], c)
      case None => None
      case Some((a, b)) => Some(([s[0]] + a, b))
  }

  function Value(s: string): nat
    requires forall k :: 0 <= k < |s| ==> IsDigit(s[k])
  {
    if s == "" then 0
    else
      assert IsDigit(s[|s| - 1]);
      Value(s[..|s| - 1]) * 10 + (s[|s| - 1] as nat - '0' as nat)
  }

  /** `str::parse::<u64>`: an optional plus sign, digits, no overflow. */
  function ParseU64(s: string): Option<nat> {
    var t := if s != "" && s[0] == '+' then s[1..] else s;
    if t == "" || exists k :: 0 <= k < |t| && !IsDigit(t[k]) then None
    else if Value(t) < U64_LIMIT then Some(Value(t)) else None
  }

  function ParseFileName(name: string): Option<(nat, string)> {
    match StripSuffix(name, ".json")
    case None => None
    case Some(stem) =>
      match SplitOnce(stem, '_')
      case None => None
      case Some((digits, hash)) =>
        if !IsHash(hash) then None
        else match ParseU64(digits)
          case None => None
          case Some(n) => Some((n, hash))
  }

  // ---- round trip ----

  lemma {:induction false} DigitsValue(n: nat, w: nat)
    requires n < Pow10(w)
    ensures Value(Digits(n, w)) == n
    decreases w
  {
    if w > 0 {
      DigitsValue(n / 10, w - 1);
      var s := Digits(n, w);
      assert s[..|s| - 1] == Digits(n / 10, w - 1);
    }
  }

  lemma {:induction false} SplitAt(a: string, c: char, b: string)
    requires c !in a
    ensures SplitOnce(a + [c] + b, c) == Some((a, b))
    decreases |a|
  {
    var s := a + [c] + b;
    if a == "" {
      assert s == [c] + b;
    } else {
      assert s == [a[0]] + (a[1..] + [c] + b);
      SplitAt(a[1..], c, b);
      assert s[1..] == a[1..] + [c] + b && s[0] == a[0] != c;
      assert [a[0]] + a[1..] == a;
    }
  }

  lemma FitsTwentyDigits(n: nat)
    requires n < U64_LIMIT
    ensures n < Pow10(20)
  {
    assert Pow10(10) == 10000000000;
    assert Pow10(15) == 1000000000000000;
    assert Pow10(20) == 100000000000000000000;
  }

  /** Parsing a printed name gives back its parts, for every u64 and hash. */
  lemma PrintedNamesParse(n: nat, hash: string)
    requires n < U64_LIMIT && IsHash(hash)
    ensures ParseFileName(FileNameFor(n, hash)) == Some((n, hash))
  {
    FitsTwentyDigits(n);
    DigitsValue(n, 20);
    var digits, name := Digits(n, 20), FileNameFor(n, hash);
    var stem := digits + ['_'] + hash;
    assert name == stem + ".json";
    assert name[|name| - 5..] == ".json" && name[..|name| - 5] == stem;
    assert '_' !in digits;
    SplitAt(digits, '_', hash);
    assert digits[0] != '+';
  }

  // ---- byte order ----

  /** The order `sort_unstable` puts names in. */
  predicate Less(a: string, b: string) {
    if b == "" then false
    else if a == "" then true
    else a[0] < b[0] || (a[0] == b[0] && Less(a[1..], b[1..]))
  }

  lemma {:induction false} LessByPrefix(a: string, b: string, x: string, y: string)
    requires |a| == |b| && Less(a, b)
    ensures Less(a + x, b + y) && !Less(b + y, a + x)
    decreases |a|
  {
    assert (a + x)[0] == a[0] && (b + y)[0] == b[0];
    if a[0] == b[0] {
      LessByPrefix(a[1..], b[1..], x, y);
      assert (a + x)[1..] == a[1..] + x && (b + y)[1..] == b[1..] + y;
    }
  }

  lemma {:induction false} LessAfterPrefix(p: string, x: string, y: string)
    ensures Less(p + x, p + y) <==> Less(x, y)
    decreases |p|
  {
    if p == "" {
      assert p + x == x && p + y == y;
    } else {
      LessAfterPrefix(p[1..], x, y);
      assert (p + x)[1..] == p[1..] + x && (p + y)[1..] == p[1..] + y;
    }
  }

  lemma {:induction false} DigitsOrder(m: nat, n: nat, w: nat)
    requires m < n < Pow10(w)
    ensures Less(Digits(m, w), Digits(n, w))
    decreases w
  {
    if w > 0 {
      if m / 10 < n / 10 {
        DigitsOrder(m / 10, n / 10, w - 1);
        LessByPrefix(Digits(m / 10, w - 1), Digits(n / 10, w - 1), [DIGITS[m % 10]], [DIGITS[n % 10]]);
      } else {
        assert DIGITS[m % 10] < DIGITS[n % 10];
        assert Less([DIGITS[m % 10]], [DIGITS[n % 10]]);
        LessAfterPrefix(Digits(n / 10, w - 1), [DIGITS[m % 10]], [DIGITS[n % 10]]);
      }
    }
  }

  /** Byte order of printed names is numeric order of their sequence numbers. */
  lemma NameOrderIsNumericOrder(m: nat, g: string, n: nat, h: string)
    requires m < U64_LIMIT && n < U64_LIMIT && m != n
    ensures Less(FileNameFor(m, g), FileNameFor(n, h)) <==> m < n
  {
    FitsTwentyDigits(m);
    FitsTwentyDigits(n);
    var x, y := "_" + g + ".json", "_" + h + ".json";
    assert FileNameFor(m, g) == Digits(m, 20) + x && FileNameFor(n, h) == Digits(n, 20) + y;
    if m < n {
      DigitsOrder(m, n, 20);
      LessByPrefix(Digits(m, 20), Digits(n, 20), x, y);
    } else {
      DigitsOrder(n, m, 20);
      LessByPrefix(Digits(n, 20), Digits(m, 20), y, x);
    }
  }

  lemma {:induction false} Irreflexive(a: string)
    ensures !Less(a, a)
    decreases |a|
  {
    if a != "" { Irreflexive(a[1..]); }
  }

  lemma {:induction false} Transitive(a: string, b: string, c: string)
    requires Less(a, b) && Less(b, c)
    ensures Less(a, c)
    decreases |a|
  {
    if a != "" && a[0] == b[0] == c[0] { Transitive(a[1..], b[1..], c[1..]); }
  }

  lemma {:induction false} Total(a: string, b: string)
    ensures Less(a, b) || a == b || Less(b, a)
    decreases |a|
  {
    if a != "" && b != "" {
      if a[0] == b[0] {
        Total(a[1..], b[1..]);
        assert a == [a[0]] + a[1..] && b == [b[0]] + b[1..];
      }
    }
  }

  // ---- the queue directory ----

  predicate Sorted(names: seq<string>) {
    forall p, q :: 0 <= p < q < |names| ==> Less(names[p], names[q])
  }

  class PendingQueue {
    var files: map<string, Marker>

    constructor ()
      ensures files == map[]
    {
      files := map[];
    }

    /** `enqueue`: the rename replaces whatever had the name. */
    method Enqueue(m: Marker)
      modifies this
      ensures files == old(files)[FileNameFor(m.seqno, m.hash) := m]
    {
      files := files[FileNameFor(m.seqno, m.hash) := m];
    }

    /** `list`: every name that parses, in byte order. */
    method List() returns (names: seq<string>)
      ensures forall n :: n in names <==> n in files && ParseFileName(n).Some?
      ensures Sorted(names)
    {
      names := [];
      var todo := files.Keys;
      while todo != {}
        invariant todo <= files.Keys && Sorted(names)
        invariant forall n :: n in names <==> n in files.Keys - todo && ParseFileName(n).Some?
        decreases |todo|
      {
        var n :| n in todo;
        todo := todo - {n};
        if ParseFileName(n).Some? { names := Insert(names, n); }
      }
    }

    /** One step of the sort: `n` goes behind every smaller name. */
    static method Insert(names: seq<string>, n: string) returns (r: seq<string>)
      requires Sorted(names) && n !in names
      ensures Sorted(r) && forall x :: x in r <==> x in names || x == n
    {
      var k := 0;
      while k < |names| && Less(names[k], n)
        invariant 0 <= k <= |names|
        invariant forall j :: 0 <= j < k ==> Less(names[j], n)
      {
        k := k + 1;
      }
      forall j | k <= j < |names| ensures Less(n, names[j]) {
        Total(names[k], n);
        if j > k { Transitive(n, names[k], names[j]); }
      }
      r := names[..k] + [n] + names[k..];
      assert names == names[..k] + names[k..];
    }

    method Read(name: string) returns (m: Option<Marker>)
      ensures m == if name in files then Some(files[name]) else None
    {
      if name in files { return Some(files[name]); }
      return None;
    }

    /** Removing a name that is already gone succeeds. */
    method Remove(name: string)
      modifies this
      ensures files == old(files) - {name}
    {
      files := files - {name};
    }
  }

  // ---- what listing means for the pipeline ----

  /** The directory holds exactly the queue's markers, under printed names. */
  predicate Holds(files: map<string, Marker>, queue: map<Name, Marker>) {
    && (forall n :: n in queue ==> n == NameOf(queue[n]) && n.seqno < U64_LIMIT && IsHash(n.hash))
    && (forall n :: n in queue ==> FileNameFor(n.seqno, n.hash) in files && files[FileNameFor(n.seqno, n.hash)] == queue[n])
    && (forall f :: f in files ==> f == FileNameFor(files[f].seqno, files[f].hash) && NameOf(files[f]) in queue)
  }

  function Parsed(names: seq<string>): (r: seq<Name>)
    requires forall n :: n in names ==> ParseFileName(n).Some?
    ensures |r| == |names|
    ensures forall k :: 0 <= k < |r| ==> r[k] == Name(ParseFileName(names[k]).value.0, ParseFileName(names[k]).value.1)
  {
    if names == [] then []
    else
      var n := names[0];
      assert n in names && forall x :: x in names[1..] ==> x in names;
      [Name(ParseFileName(n).value.0, ParseFileName(n).value.1)] + Parsed(names[1..])
  }

  lemma HeldNameParses(files: map<string, Marker>, queue: map<Name, Marker>, f: string)
    requires Holds(files, queue) && f in files
    ensures ParseFileName(f) == Some((files[f].seqno, files[f].hash))
  {
    var n := NameOf(files[f]);
    assert n in queue;
    PrintedNamesParse(n.seqno, n.hash);
  }

  lemma ListedIsHeld(files: map<string, Marker>, queue: map<Name, Marker>, names: seq<string>, k: nat)
    requires Holds(files, queue) && k < |names|
    requires forall n :: n in names <==> n in files && ParseFileName(n).Some?
    ensures names[k] in files && Parsed(names)[k] == NameOf(files[names[k]]) && NameOf(files[names[k]]) in queue
  {
    assert names[k] in names;
    HeldNameParses(files, queue, names[k]);
  }

  /** The sorted directory listing is the protocol's FIFO listing of the queue. */
  lemma ListingIsFifo(files: map<string, Marker>, queue: map<Name, Marker>, names: seq<string>)
    requires Holds(files, queue) && Sorted(names)
    requires forall n :: n in names <==> n in files && ParseFileName(n).Some?
    ensures P.Listed(queue, Parsed(names))
  {
    var ns := Parsed(names);
    forall k | 0 <= k < |ns| ensures ns[k] in queue { ListedIsHeld(files, queue, names, k); }
    forall n | n in queue ensures n in ns {
      var f := FileNameFor(n.seqno, n.hash);
      HeldNameParses(files, queue, f);
      assert f in names;
      var k :| 0 <= k < |names| && names[k] == f;
      assert ns[k] == n;
    }
    forall p, q | 0 <= p < q < |ns| ensures ns[p] != ns[q] && ns[p].seqno <= ns[q].seqno {
      ListedIsHeld(files, queue, names, p);
      ListedIsHeld(files, queue, names, q);
      var a, b := NameOf(files[names[p]]), NameOf(files[names[q]]);
      assert a in queue && b in queue;
      if a.seqno == b.seqno { Irreflexive(names[p]); } else { NameOrderIsNumericOrder(a.seqno, a.hash, b.seqno, b.hash); }
    }
  }

  /** `start` seeds above every queued marker: one more than the number parsed
      from the last listed name, or 1 for an empty queue. */
  lemma StartSeedsAboveTheQueue(files: map<string, Marker>, queue: map<Name, Marker>, names: seq<string>)
    requires Holds(files, queue) && Sorted(names)
    requires forall n :: n in names <==> n in files && ParseFileName(n).Some?
    ensures I.Seeds(queue, if names == [] then 1 else ParseFileName(names[|names| - 1]).value.0 + 1)
  {
    ListingIsFifo(files, queue, names);
  }

  /** A marker numbered above everything queued takes a name nothing has. */
  lemma EnqueueOverwritesNothing(files: map<string, Marker>, queue: map<Name, Marker>, m: Marker)
    requires Holds(files, queue) && m.seqno < U64_LIMIT && IsHash(m.hash)
    requires forall n :: n in queue ==> n.seqno < m.seqno
    ensures FileNameFor(m.seqno, m.hash) !in files
    ensures Holds(files[FileNameFor(m.seqno, m.hash) := m], queue[NameOf(m) := m])
  {
    var f := FileNameFor(m.seqno, m.hash);
    PrintedNamesParse(m.seqno, m.hash);
    if f in files { HeldNameParses(files, queue, f); }
    forall n | n in queue ensures FileNameFor(n.seqno, n.hash) != f { PrintedNamesParse(n.seqno, n.hash); }
  }

  /** Reading a printed name finds the marker queued under it, or that none is. */
  lemma ReadFindsTheMarker(files: map<string, Marker>, queue: map<Name, Marker>, n: Name)
    requires Holds(files, queue) && n.seqno < U64_LIMIT && IsHash(n.hash)
    ensures FileNameFor(n.seqno, n.hash) in files <==> n in queue
    ensures n in queue ==> files[FileNameFor(n.seqno, n.hash)] == queue[n]
  {
    var f := FileNameFor(n.seqno, n.hash);
    PrintedNamesParse(n.seqno, n.hash);
    if f in files { HeldNameParses(files, queue, f); }
  }

  /** Removing a printed name takes that marker from the queue and no other. */
  lemma RemoveTakesOnlyItsMarker(files: map<string, Marker>, queue: map<Name, Marker>, n: Name)
    requires Holds(files, queue) && n.seqno < U64_LIMIT && IsHash(n.hash)
    ensures Holds(files - {FileNameFor(n.seqno, n.hash)}, queue - {n})
  {
    PrintedNamesParse(n.seqno, n.hash);
    forall x | x in queue && x != n ensures FileNameFor(x.seqno, x.hash) != FileNameFor(n.seqno, n.hash) {
      PrintedNamesParse(x.seqno, x.hash);
    }
    forall f | f in files && f != FileNameFor(n.seqno, n.hash) ensures NameOf(files[f]) != n {
      assert NameOf(files[f]) == n ==> f == FileNameFor(n.seqno, n.hash);
    }
  }

  // ---- names the parser takes and the printer never makes ----

  /** A parseable name: an optional plus sign, digits of any number, a hash. */
  function StrayName(plus: bool, digits: string, hash: string): string {
    (if plus then "+" else "") + digits + "_" + hash + ".json"
  }

  predicate AllDigits(s: string) { forall k :: 0 <= k < |s| ==> IsDigit(s[k]) }

  lemma StrayNamesParse(plus: bool, digits: string, hash: string)
    requires digits != "" && AllDigits(digits) && Value(digits) < U64_LIMIT && IsHash(hash)
    ensures ParseFileName(StrayName(plus, digits, hash)) == Some((Value(digits), hash))
  {
    var head := (if plus then "+" else "") + digits;
    var stem, name := head + ['_'] + hash, StrayName(plus, digits, hash);
    assert name == stem + ".json" && name[|name| - 5..] == ".json" && name[..|name| - 5] == stem;
    SplitAt(head, '_', hash);
    assert plus ==> head[1..] == digits;
    assert !plus ==> head == digits;
  }

  lemma {:induction false} DigitsOfValue(s: string)
    requires AllDigits(s)
    ensures Digits(Value(s), |s|) == s && Value(s) < Pow10(|s|)
    decreases |s|
  {
    if s != "" {
      var n := |s| - 1;
      DigitsOfValue(s[..n]);
      var d := s[n] as nat - '0' as nat;
      assert IsDigit(s[n]) && d < 10 && DIGITS[d] == s[n];
      assert Value(s) == Value(s[..n]) * 10 + d;
      assert Value(s) / 10 == Value(s[..n]) && Value(s) % 10 == d;
      assert s == s[..n] + [s[n]];
    }
  }

  /** A number without its last `k` decimal digits. */
  function Cut(n: nat, k: nat): nat
    decreases k
  {
    if k == 0 then n else Cut(n / 10, k - 1)
  }

  /** The leading digits are the digits of the cut number. */
  lemma {:induction false} LeadingDigits(n: nat, w: nat, k: nat)
    requires k <= w && n < Pow10(w)
    ensures Digits(n, w)[..w - k] == Digits(Cut(n, k), w - k) && Cut(n, k) < Pow10(w - k)
    decreases k
  {
    if k > 0 {
      LeadingDigits(n / 10, w - 1, k - 1);
      assert Digits(n, w)[..w - k] == Digits(n / 10, w - 1)[..(w - 1) - (k - 1)];
    } else {
      assert Digits(n, w)[..w] == Digits(n, w);
    }
  }

  /** Equally long digit strings compare as the numbers they print. */
  lemma ByLeadingDigits(m: nat, n: nat, w: nat, x: string, y: string)
    requires m < Pow10(w) && n < Pow10(w)
    ensures m < n ==> Less(Digits(m, w) + x, Digits(n, w) + y)
    ensures m > n ==> !Less(Digits(m, w) + x, Digits(n, w) + y)
    ensures m == n ==> (Less(Digits(m, w) + x, Digits(n, w) + y) <==> Less(x, y))
  {
    if m < n {
      DigitsOrder(m, n, w);
      LessByPrefix(Digits(m, w), Digits(n, w), x, y);
    } else if m > n {
      DigitsOrder(n, m, w);
      LessByPrefix(Digits(n, w), Digits(m, w), y, x);
    } else {
      LessAfterPrefix(Digits(m, w), x, y);
    }
  }

  /** Where a name without plus sign sorts among the printed ones: as if its
      digits were filled up, or cut, to twenty. */
  predicate SortsBefore(digits: string, n: nat)
    requires AllDigits(digits)
  {
    if |digits| <= 20 then Value(digits) < Cut(n, 20 - |digits|) else Cut(Value(digits), |digits| - 20) <= n
  }

  lemma Parted(s: string, w: nat)
    requires w <= |s|
    ensures s == s[..w] + s[w..]
  { }

  /** A name taken apart after the first part of its digits. */
  lemma NameParts(digits: string, a: string, b: string, hash: string)
    requires digits == a + b
    ensures StrayName(false, digits, hash) == a + (b + ("_" + hash + ".json"))
  {
    assert "" + digits == digits;
  }

  /** The same comparison for printing to any number of digits. */
  lemma ShortSortsAt(digits: string, hash: string, n: nat, g: string, wide: nat)
    requires digits != "" && AllDigits(digits) && |digits| <= wide && n < Pow10(wide) && Value(digits) != n
    ensures Less(StrayName(false, digits, hash), StrayName(false, Digits(n, wide), g)) <==> Value(digits) < Cut(n, wide - |digits|)
  {
    DigitsOfValue(digits);
    ShortCut(n, wide, |digits|);
    ShortCompared(digits, Value(digits), hash, Digits(n, wide), Cut(n, wide - |digits|), g);
  }

  lemma ShortCut(n: nat, wide: nat, w: nat)
    requires w <= wide && n < Pow10(wide)
    ensures Digits(n, wide)[..w] == Digits(Cut(n, wide - w), w) && Cut(n, wide - w) < Pow10(w)
    ensures w == wide ==> Cut(n, wide - w) == n
  {
    LeadingDigits(n, wide, wide - w);
  }

  /** An underscore sorts behind every digit, and equal names are not less. */
  lemma UnderscoreSortsLast(x: string, rest: string, z: string)
    requires x != "" && x[0] == '_' && AllDigits(rest)
    ensures rest != "" ==> !Less(x, rest + z) && Less(rest + z, x)
  {
    if rest != "" { assert (rest + z)[0] == rest[0] && IsDigit(rest[0]); }
  }

  lemma ShortCompared(digits: string, v: nat, hash: string, full: string, lead: nat, g: string)
    requires |digits| <= |full| && AllDigits(full) && full[..|digits|] == Digits(lead, |digits|) && digits == Digits(v, |digits|)
    requires v < Pow10(|digits|) && lead < Pow10(|digits|) && (|digits| == |full| ==> v != lead)
    ensures Less(StrayName(false, digits, hash), StrayName(false, full, g)) <==> v < lead
  {
    var w := |digits|;
    var x, z := "_" + hash + ".json", "_" + g + ".json";
    assert "" + digits == digits;
    assert StrayName(false, digits, hash) == digits + ("_" + hash + ".json");
    Parted(full, w);
    NameParts(full, full[..w], full[w..], g);
    ByLeadingDigits(v, lead, w, x, full[w..] + z);
    UnderscoreSortsLast(x, full[w..], z);
  }

  lemma PrintedIs(n: nat, g: string)
    ensures FileNameFor(n, g) == StrayName(false, Digits(n, 20), g)
  { }

  lemma ShortSorts(digits: string, hash: string, n: nat, g: string)
    requires digits != "" && AllDigits(digits) && |digits| <= 20 && n < U64_LIMIT && Value(digits) != n
    ensures Less(StrayName(false, digits, hash), FileNameFor(n, g)) <==> SortsBefore(digits, n)
  {
    FitsTwentyDigits(n);
    ShortSortsAt(digits, hash, n, g, 20);
    PrintedIs(n, g);
  }

  lemma LongSortsAt(digits: string, hash: string, n: nat, g: string, wide: nat)
    requires AllDigits(digits) && |digits| > wide && n < Pow10(wide)
    ensures Less(StrayName(false, digits, hash), StrayName(false, Digits(n, wide), g)) <==> Cut(Value(digits), |digits| - wide) <= n
  {
    var k := |digits| - wide;
    DigitsOfValue(digits);
    LeadingDigits(Value(digits), |digits|, k);
    var y, z, rest := "_" + g + ".json", "_" + hash + ".json", digits[wide..];
    Parted(digits, wide);
    NameParts(digits, Digits(Cut(Value(digits), k), wide), rest, hash);
    NameParts(Digits(n, wide), Digits(n, wide), "", g);
    assert "" + y == y;
    ByLeadingDigits(Cut(Value(digits), k), n, wide, rest + z, y);
    UnderscoreSortsLast(y, rest, z);
  }

  /** The stray name stands on the wrong side of printed number `n`. */
  predicate Misplaced(plus: bool, digits: string, n: nat)
    requires AllDigits(digits)
  {
    if plus then n < Value(digits) else SortsBefore(digits, n) != (Value(digits) < n)
  }

  /** Byte order puts a stray name and a printed one in the order of their numbers
      unless the stray name is misplaced: written with a plus sign it sorts before
      every printed name; with fewer than twenty digits it sorts behind numbers
      above its own, with more before numbers below its own. */
  lemma StrayNamesSortRightIff(plus: bool, digits: string, hash: string, n: nat, g: string)
    requires digits != "" && AllDigits(digits) && IsHash(hash) && n < U64_LIMIT && Value(digits) != n
    ensures (Less(StrayName(plus, digits, hash), FileNameFor(n, g)) <==> Value(digits) < n) <==> !Misplaced(plus, digits, n)
  {
    if plus {
      assert StrayName(plus, digits, hash)[0] == '+' && IsDigit(FileNameFor(n, g)[0]);
    } else if |digits| <= 20 {
      ShortSorts(digits, hash, n, g);
    } else {
      LongSorts(digits, hash, n, g);
    }
  }

  lemma LongSorts(digits: string, hash: string, n: nat, g: string)
    requires AllDigits(digits) && |digits| > 20 && n < U64_LIMIT && Value(digits) != n
    ensures Less(StrayName(false, digits, hash), FileNameFor(n, g)) <==> SortsBefore(digits, n)
  {
    FitsTwentyDigits(n);
    LongSortsAt(digits, hash, n, g, 20);
    PrintedIs(n, g);
  }

  /** So a stray "9_<hash>.json" is listed as number 9 behind a printed number 10,
      and `start` would seed at 10 again. */
  lemma UnpaddedNameBreaksFifo(hash: string)
    requires IsHash(hash)
    ensures ParseFileName("9_" + hash + ".json") == Some((9, hash))
    ensures Less(FileNameFor(10, hash), "9_" + hash + ".json")
  {
    var digits := "9";
    assert digits[..0] == "" && Value(digits) == 9;
    StrayNamesParse(false, digits, hash);
    assert StrayName(false, digits, hash) == "9_" + hash + ".json";
    assert Cut(10, 19) == 0 by { assert Cut(10, 19) == Cut(1, 18) == Cut(0, 17); CutZero(17); }
    ShortSorts(digits, hash, 10, hash);
    PrintedNamesParse(10, hash);
    Total(FileNameFor(10, hash), "9_" + hash + ".json");
  }

  lemma {:induction false} CutZero(k: nat)
    ensures Cut(0, k) == 0
    decreases k
  {
    if k > 0 { CutZero(k - 1); }
  }
}
