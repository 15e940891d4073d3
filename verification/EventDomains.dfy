/**
 Invalidation domains of catalog events and the signals that carry them: normalising whatever a
 payload names, and merging several signals of one Vault into the newest.
 */
module EventDomains {
  import opened Common

  /** The JSON shapes a payload can take where domains are looked for. */
  datatype Value =
    | Null
    | Text(text: string)
    | List(items: seq<string>)
    | Object(invalidate: Value, domains: Value)
    | Other

  const DEFAULT_DOMAINS: seq<string> := ["files", "stats"]

  function TrimLeft(s: string): string {
    if s != "" && IsSpace(s[0]) then TrimLeft(s[1..]) else s
  }

  function TrimRight(s: string): string {
    if s != "" && IsSpace(s[|s| - 1]) then TrimRight(s[..|s| - 1]) else s
  }

  function Strip(s: string): string {
    TrimRight(TrimLeft(s))
  }

  /** Text without leading or trailing white space, and not empty. */
  predicate Clean(s: string) {
    s != "" && !IsSpace(s[0]) && !IsSpace(s[|s| - 1])
  }

  lemma {:induction false} TrimLeftClean(s: string)
    ensures TrimLeft(s) == "" || !IsSpace(TrimLeft(s)[0])
    ensures s != "" && !IsSpace(s[0]) ==> TrimLeft(s) == s
  {
    if s != "" && IsSpace(s[0]) { TrimLeftClean(s[1..]); }
  }

  lemma {:induction false} TrimRightClean(s: string)
    ensures TrimRight(s) <= s
    ensures TrimRight(s) == "" || !IsSpace(TrimRight(s)[|TrimRight(s)| - 1])
    ensures s != "" && !IsSpace(s[|s| - 1]) ==> TrimRight(s) == s
  {
    if s != "" && IsSpace(s[|s| - 1]) { TrimRightClean(s[..|s| - 1]); }
  }

  lemma StripClean(s: string)
    ensures Strip(s) == "" || Clean(Strip(s))
    ensures Clean(s) ==> Strip(s) == s
  {
    TrimLeftClean(s);
    TrimRightClean(TrimLeft(s));
    TrimRightClean(s);
  }

  function Trimmed(parts: seq<string>): seq<string> {
    if parts == [] then []
    else (if Strip(parts[0]) == "" then [] else [Strip(parts[0])]) + Trimmed(parts[1..])
  }

  /** `text.split(",")`. */
  function Split(text: string): seq<string>
    decreases |text|
  {
    SplitFrom(text, 0)
  }

  function SplitFrom(text: string, i: nat): seq<string>
    requires i <= |text|
    decreases |text|, |text| - i
  {
    if i == |text| then [text]
    else if text[i] == ',' then [text[..i]] + SplitFrom(text[i + 1..], 0)
    else SplitFrom(text, i + 1)
  }

  /** First occurrences, in order. */
  function Distinct(parts: seq<string>): seq<string> {
    if parts == [] then []
    else
      var before := Distinct(parts[..|parts| - 1]);
      if parts[|parts| - 1] in before then before else before + [parts[|parts| - 1]]
  }

  lemma {:induction false} DistinctFacts(parts: seq<string>)
    ensures NoDuplicates(Distinct(parts))
    ensures forall d :: d in Distinct(parts) <==> d in parts
    ensures NoDuplicates(parts) ==> Distinct(parts) == parts
  {
    if parts != [] {
      var init, last := parts[..|parts| - 1], parts[|parts| - 1];
      DistinctFacts(init);
      assert parts == init + [last];
    }
  }

  function Normalize(v: Value): seq<string> {
    match v
    case Null => DEFAULT_DOMAINS
    case Other => DEFAULT_DOMAINS
    case Text(text) => OrDefault(Distinct(Trimmed(Split(text))))
    case List(items) => OrDefault(Distinct(Trimmed(items)))
    case Object(invalidate, domains) => if invalidate.Null? then Normalize(domains) else Normalize(invalidate)
  }

  function OrDefault(parts: seq<string>): seq<string> {
    if parts == [] then DEFAULT_DOMAINS else parts
  }

  lemma {:induction false} TrimmedFacts(parts: seq<string>)
    ensures forall d | d in Trimmed(parts) :: Clean(d)
    ensures (forall d | d in parts :: Clean(d)) ==> Trimmed(parts) == parts
  {
    if parts != [] {
      StripClean(parts[0]);
      TrimmedFacts(parts[1..]);
      assert parts == [parts[0]] + parts[1..];
      if forall d | d in parts :: Clean(d) {
        assert Clean(parts[0]) && Strip(parts[0]) == parts[0];
        assert forall d | d in parts[1..] :: d in parts;
      }
    }
  }

  /** A list of domains as clients receive it. */
  predicate WellFormed(domains: seq<string>) {
    domains != [] && NoDuplicates(domains) && forall d | d in domains :: Clean(d)
  }

  /**
   Whatever the payload holds, the result is a non-empty list of distinct, trimmed names, and
   normalising it again changes nothing.
   */
  lemma {:induction false} NormalizeFacts(v: Value)
    ensures WellFormed(Normalize(v))
    ensures Normalize(List(Normalize(v))) == Normalize(v)
    decreases v
  {
    match v {
      case Object(i, d) => NormalizeFacts(if i.Null? then d else i);
      case Text(text) => NormalizedParts(Split(text));
      case List(items) => NormalizedParts(items);
      case _ => DefaultWellFormed();
    }
    WellFormedFixed(Normalize(v));
  }

  lemma DefaultWellFormed()
    ensures WellFormed(DEFAULT_DOMAINS)
  {
  }

  lemma NormalizedParts(parts: seq<string>)
    ensures WellFormed(OrDefault(Distinct(Trimmed(parts))))
  {
    TrimmedFacts(parts);
    DistinctFacts(Trimmed(parts));
    DefaultWellFormed();
  }

  lemma WellFormedFixed(domains: seq<string>)
    requires WellFormed(domains)
    ensures Normalize(List(domains)) == domains
  {
    TrimmedFacts(domains);
    DistinctFacts(domains);
  }

  // ----- what a payload names -----

  /** What is left of the text without the white space around it, if anything is. */
  ghost predicate Strips(s: string, d: string) {
    exists a: nat, b: nat :: Between(s, a, b, d)
  }

  ghost predicate Between(s: string, a: nat, b: nat, d: string) {
    && a < b <= |s| && s[a..b] == d && !IsSpace(s[a]) && !IsSpace(s[b - 1])
    && (forall i | 0 <= i < a :: IsSpace(s[i])) && (forall i | b <= i < |s| :: IsSpace(s[i]))
  }

  lemma {:induction false} TrimLeftIs(s: string) returns (a: nat)
    ensures a <= |s| && TrimLeft(s) == s[a..] && (forall i | 0 <= i < a :: IsSpace(s[i]))
    ensures a < |s| ==> !IsSpace(s[a])
  {
    if s != "" && IsSpace(s[0]) {
      var b := TrimLeftIs(s[1..]);
      a := b + 1;
      assert s[1..][b..] == s[a..];
      assert forall i | 0 < i < |s| :: s[i] == s[1..][i - 1];
    } else {
      a := 0;
    }
  }

  lemma {:induction false} TrimRightIs(s: string) returns (b: nat)
    ensures b <= |s| && TrimRight(s) == s[..b] && (forall i | b <= i < |s| :: IsSpace(s[i]))
    ensures b > 0 ==> !IsSpace(s[b - 1])
  {
    if s != "" && IsSpace(s[|s| - 1]) {
      b := TrimRightIs(s[..|s| - 1]);
      assert s[..|s| - 1][..b] == s[..b];
      assert forall i | 0 <= i < |s| - 1 :: s[i] == s[..|s| - 1][i];
    } else {
      b := |s|;
    }
  }

  /** The two ends are determined: outside them everything is white space, at them nothing is. */
  lemma OneBetween(s: string, a: nat, b: nat, d: string, x: nat, y: nat, e: string)
    requires Between(s, a, b, d) && Between(s, x, y, e)
    ensures d == e
  {
    assert a == x && b == y;
  }

  lemma StripIs(s: string, d: string)
    requires d != ""
    ensures Strip(s) == d <==> Strips(s, d)
  {
    var a := TrimLeftIs(s);
    var b := TrimRightIs(s[a..]);
    assert forall i | 0 <= i < |s| - a :: s[a..][i] == s[a + i];
    if b > 0 {
      assert s[a..][..b] == s[a..a + b];
      assert forall i | a + b <= i < |s| :: s[i] == s[a..][i - a];
      assert Between(s, a, a + b, Strip(s));
      if x: nat, y: nat :| Between(s, x, y, d) {
        OneBetween(s, a, a + b, Strip(s), x, y, d);
      }
    }
  }

  ghost predicate NamedIn(items: seq<string>, d: string) {
    exists i :: 0 <= i < |items| && Strips(items[i], d)
  }

  /** `text[a..b]` is one of the pieces between the commas. */
  ghost predicate IsPart(text: string, a: nat, b: nat) {
    && a <= b <= |text| && (a == 0 || text[a - 1] == ',') && (b == |text| || text[b] == ',')
    && forall i | a <= i < b :: text[i] != ','
  }

  ghost predicate NamedBetweenCommas(text: string, d: string) {
    exists a: nat, b: nat :: PartNames(text, a, b, d)
  }

  ghost predicate PartNames(text: string, a: nat, b: nat, d: string) {
    IsPart(text, a, b) && Strips(text[a..b], d)
  }

  /** The domains a payload names: `invalidate` speaks for an object unless it is absent, then `domains` does. */
  ghost predicate Names(v: Value, d: string)
    decreases v
  {
    match v
    case Null => false
    case Other => false
    case Text(text) => NamedBetweenCommas(text, d)
    case List(items) => NamedIn(items, d)
    case Object(Null, domains) => Names(domains, d)
    case Object(invalidate, _) => Names(invalidate, d)
  }

  lemma {:induction false} TrimmedNames(parts: seq<string>, d: string)
    ensures d in Trimmed(parts) <==> NamedIn(parts, d)
  {
    if parts != [] {
      var rest := parts[1..];
      TrimmedNames(rest, d);
      StripClean(parts[0]);
      NothingStripped(parts[0]);
      if d != "" { StripIs(parts[0], d); }
      if NamedIn(rest, d) {
        var i :| 0 <= i < |rest| && Strips(rest[i], d);
        assert Strips(parts[i + 1], d);
      }
      if NamedIn(parts, d) {
        var i :| 0 <= i < |parts| && Strips(parts[i], d);
        if i > 0 { assert Strips(rest[i - 1], d); }
      }
    }
  }

  lemma NothingStripped(s: string)
    ensures !Strips(s, "")
  {
  }

  lemma {:induction false} SplitParts(text: string, i: nat, d: string)
    requires i <= |text| && forall j | 0 <= j < i :: text[j] != ','
    ensures NamedIn(SplitFrom(text, i), d) <==> NamedBetweenCommas(text, d)
    decreases |text|, |text| - i
  {
    if i == |text| {
      HeadOrRest(text, [], d);
      assert [text] + [] == [text] && IsPart(text, 0, |text|) && text[0..|text|] == text;
      assert Strips(text, d) ==> PartNames(text, 0, |text|, d);
      if a: nat, b: nat :| PartNames(text, a, b, d) { assert a == 0 && b == |text|; }
    } else if text[i] == ',' {
      var rest := text[i + 1..];
      SplitParts(rest, 0, d);
      HeadOrRest(text[..i], SplitFrom(rest, 0), d);
      PartsAfterComma(text, i, d);
    } else {
      SplitParts(text, i + 1, d);
    }
  }

  lemma HeadOrRest(head: string, rest: seq<string>, d: string)
    ensures NamedIn([head] + rest, d) <==> Strips(head, d) || NamedIn(rest, d)
  {
    var all := [head] + rest;
    if NamedIn(rest, d) {
      var k :| 0 <= k < |rest| && Strips(rest[k], d);
      assert Strips(all[k + 1], d);
    }
    if Strips(head, d) { assert Strips(all[0], d); }
  }

  /** The pieces of a text are the one before its first comma and those of what follows it. */
  lemma PartsAfterComma(text: string, i: nat, d: string)
    requires i < |text| && text[i] == ',' && forall j | 0 <= j < i :: text[j] != ','
    ensures NamedBetweenCommas(text, d) <==> Strips(text[..i], d) || NamedBetweenCommas(text[i + 1..], d)
  {
    var rest := text[i + 1..];
    if Strips(text[..i], d) {
      assert text[0..i] == text[..i];
      assert PartNames(text, 0, i, d);
    }
    if a: nat, b: nat :| PartNames(rest, a, b, d) {
      PartShifts(text, i + 1, a, b);
      assert PartNames(text, i + 1 + a, i + 1 + b, d);
    }
    if a: nat, b: nat :| PartNames(text, a, b, d) {
      PartOfRest(text, i, a, b, d);
    }
  }

  lemma PartOfRest(text: string, i: nat, a: nat, b: nat, d: string)
    requires i < |text| && text[i] == ',' && (forall j | 0 <= j < i :: text[j] != ',') && PartNames(text, a, b, d)
    ensures Strips(text[..i], d) || NamedBetweenCommas(text[i + 1..], d)
  {
    if a <= i {
      assert a == 0 && b == i && text[0..i] == text[..i];
    } else {
      PartShifts(text, i + 1, a - i - 1, b - i - 1);
      assert PartNames(text[i + 1..], a - i - 1, b - i - 1, d);
    }
  }

  lemma PartShifts(text: string, i: nat, a: nat, b: nat)
    requires 0 < i <= |text| && text[i - 1] == ',' && i + b <= |text| && a <= b
    ensures IsPart(text[i..], a, b) <==> IsPart(text, i + a, i + b)
    ensures text[i..][a..b] == text[i + a..i + b]
  {
    assert forall j | 0 <= j < |text| - i :: text[i..][j] == text[i + j];
    if IsPart(text[i..], a, b) {
      assert forall j | i + a <= j < i + b :: text[j] == text[i..][j - i];
    }
  }

  lemma PartsNamed(parts: seq<string>)
    ensures forall d :: d in Trimmed(parts) <==> NamedIn(parts, d)
  {
    forall d ensures d in Trimmed(parts) <==> NamedIn(parts, d) {
      TrimmedNames(parts, d);
    }
  }

  lemma PartsNormalized(parts: seq<string>)
    ensures (exists d :: NamedIn(parts, d)) ==>
      forall d :: d in OrDefault(Distinct(Trimmed(parts))) <==> NamedIn(parts, d)
    ensures (forall d :: !NamedIn(parts, d)) ==> OrDefault(Distinct(Trimmed(parts))) == ["files", "stats"]
  {
    var found := Distinct(Trimmed(parts));
    PartsNamed(parts);
    DistinctFacts(Trimmed(parts));
    if found != [] {
      assert found[0] in found && NamedIn(parts, found[0]);
    }
  }

  /**
   Normalising yields exactly the domains the payload names, and the two default ones for a payload that names none.
   */
  lemma {:induction false} NormalizedNames(v: Value)
    ensures (exists d :: Names(v, d)) ==> forall d :: d in Normalize(v) <==> Names(v, d)
    ensures (forall d :: !Names(v, d)) ==> Normalize(v) == ["files", "stats"]
    decreases v
  {
    match v
    case Object(invalidate, domains) =>
      var inner := if invalidate.Null? then domains else invalidate;
      NormalizedNames(inner);
      assert forall d :: Names(v, d) <==> Names(inner, d);
    case List(items) =>
      PartsNormalized(items);
      assert forall d :: Names(v, d) <==> NamedIn(items, d);
    case Text(text) =>
      PartsNormalized(Split(text));
      assert forall d :: Names(v, d) <==> NamedBetweenCommas(text, d);
      forall d ensures NamedIn(Split(text), d) <==> NamedBetweenCommas(text, d) {
        SplitParts(text, 0, d);
      }
    case _ =>
  }

  /** Each domain comes before those that are first named after it. */
  ghost predicate InOrderOf(items: seq<string>, domains: seq<string>) {
    forall i, j | 0 <= i < j < |domains| :: NamedEarlier(items, domains[i], domains[j])
  }

  ghost predicate NamedEarlier(items: seq<string>, d: string, e: string) {
    exists p: nat :: p <= |items| && NamedIn(items[..p], d) && !NamedIn(items[..p], e)
  }

  lemma {:induction false} TrimmedSplit(front: seq<string>, x: string)
    ensures Trimmed(front + [x]) == Trimmed(front) + if Strip(x) == "" then [] else [Strip(x)]
  {
    if front == [] {
      assert [x][1..] == [] && front + [x] == [x];
    } else {
      assert (front + [x])[0] == front[0] && (front + [x])[1..] == front[1..] + [x];
      TrimmedSplit(front[1..], x);
    }
  }

  lemma EarlierStays(front: seq<string>, x: string, d: string, e: string)
    requires NamedEarlier(front, d, e)
    ensures NamedEarlier(front + [x], d, e)
  {
    var p: nat :| p <= |front| && NamedIn(front[..p], d) && !NamedIn(front[..p], e);
    assert (front + [x])[..p] == front[..p];
  }

  lemma OrderStep(front: seq<string>, x: string, before: seq<string>, d: string)
    requires InOrderOf(front, before) && (forall e | e in before :: NamedIn(front, e)) && !NamedIn(front, d)
    ensures InOrderOf(front + [x], before) && InOrderOf(front + [x], before + [d])
  {
    var items, after := front + [x], before + [d];
    forall i, j | 0 <= i < j < |after| ensures NamedEarlier(items, after[i], after[j]) {
      if j < |before| {
        EarlierStays(front, x, before[i], before[j]);
      } else {
        assert before[i] in before && items[..|front|] == front;
      }
    }
    assert forall i | 0 <= i < |before| :: before[i] == after[i];
  }

  lemma OrderRests(front: seq<string>, x: string, before: seq<string>)
    requires InOrderOf(front, before)
    ensures InOrderOf(front + [x], before)
  {
    forall i, j | 0 <= i < j < |before| ensures NamedEarlier(front + [x], before[i], before[j]) {
      EarlierStays(front, x, before[i], before[j]);
    }
  }

  lemma DistinctNext(front: seq<string>, x: string)
    ensures var before := Distinct(Trimmed(front));
      Distinct(Trimmed(front + [x])) == if Strip(x) == "" || Strip(x) in before then before else before + [Strip(x)]
  {
    TrimmedSplit(front, x);
    if Strip(x) == "" {
      assert Trimmed(front) + [] == Trimmed(front);
    } else {
      var parts := Trimmed(front) + [Strip(x)];
      assert parts[..|parts| - 1] == Trimmed(front) && parts[|parts| - 1] == Strip(x);
    }
  }

  lemma FoundAreNamed(items: seq<string>)
    ensures forall d :: d in Distinct(Trimmed(items)) <==> NamedIn(items, d)
  {
    PartsNamed(items);
    DistinctFacts(Trimmed(items));
  }

  lemma OrderNext(front: seq<string>, x: string, before: seq<string>)
    requires before == Distinct(Trimmed(front)) && InOrderOf(front, before)
    ensures InOrderOf(front + [x], Distinct(Trimmed(front + [x])))
  {
    DistinctNext(front, x);
    OrderRests(front, x, before);
    if Strip(x) != "" && Strip(x) !in before {
      FoundAreNamed(front);
      OrderStep(front, x, before, Strip(x));
    }
  }

  /** A list keeps the order in which its domains are first named. */
  lemma NormalizedOrder(items: seq<string>)
    ensures (exists d :: NamedIn(items, d)) ==> InOrderOf(items, Normalize(List(items)))
  {
    OrderIsKept(items);
    FoundAreNamed(items);
  }

  lemma {:induction false} OrderIsKept(items: seq<string>)
    ensures InOrderOf(items, Distinct(Trimmed(items)))
  {
    if items != [] {
      var front, x := items[..|items| - 1], items[|items| - 1];
      OrderIsKept(front);
      OrderNext(front, x, Distinct(Trimmed(front)));
      assert items == front + [x];
    }
  }

  /** The accumulation loop of `normalize_invalidate_domains`. */
  method Accumulate(parts: seq<string>) returns (ordered: seq<string>)
    ensures ordered == Distinct(parts)
  {
    ordered := [];
    var seen: set<string> := {};
    for i := 0 to |parts|
      invariant ordered == Distinct(parts[..i])
      invariant forall d :: d in seen <==> d in ordered
    {
      assert parts[..i + 1][..i] == parts[..i];
      if parts[i] !in seen {
        seen := seen + {parts[i]};
        ordered := ordered + [parts[i]];
      }
    }
    assert parts[..|parts|] == parts;
  }

  // ----- signals -----

  datatype Signal = Signal(vault: VaultId, revision: nat, domains: seq<string>, hasGap: bool)

  function Merge(a: Signal, b: Signal): Signal {
    Signal(a.vault, if a.revision < b.revision then b.revision else a.revision,
           Normalize(List(a.domains + Normalize(List(b.domains)))), a.hasGap || b.hasGap)
  }

  /** `coalesce_signals`; None stands for merging nothing, an error for mixing Vaults. */
  datatype Merged = Nothing | One(signal: Signal) | MixedVaults

  function Coalesce(signals: seq<Signal>): Merged {
    if signals == [] then Nothing
    else
      var s := signals[|signals| - 1];
      match Coalesce(signals[..|signals| - 1])
      case Nothing => One(s.(domains := Normalize(List(s.domains))))
      case MixedVaults => MixedVaults
      case One(m) => if s.vault != m.vault then MixedVaults else One(Merge(m, s))
  }

  lemma MergeKeeps(a: Signal, b: Signal)
    requires WellFormed(a.domains) && WellFormed(b.domains)
    ensures WellFormed(Merge(a, b).domains)
    ensures forall d :: d in Merge(a, b).domains <==> d in a.domains || d in b.domains
  {
    WellFormedFixed(b.domains);
    TrimmedFacts(a.domains + b.domains);
    DistinctFacts(a.domains + b.domains);
    NormalizeFacts(List(a.domains + b.domains));
  }

  /**
   Merging signals of one Vault never loses anything: the newest revision, exactly the union of
   the domains, and a gap if any of them had one.
   */
  lemma {:induction false} CoalesceFacts(signals: seq<Signal>, vault: VaultId)
    requires signals != [] && forall s | s in signals :: s.vault == vault && WellFormed(s.domains)
    ensures Coalesce(signals).One?
    ensures var m := Coalesce(signals).signal;
      && m.vault == vault && WellFormed(m.domains)
      && (forall s | s in signals :: s.revision <= m.revision)
      && (exists s | s in signals :: s.revision == m.revision)
      && (forall d :: d in m.domains <==> exists s | s in signals :: d in s.domains)
      && (m.hasGap <==> exists s | s in signals :: s.hasGap)
  {
    var init, last := signals[..|signals| - 1], signals[|signals| - 1];
    assert signals == init + [last] && last in signals;
    WellFormedFixed(last.domains);
    if init == [] {
      assert Coalesce(init) == Nothing;
    } else {
      CoalesceFacts(init, vault);
      MergeKeeps(Coalesce(init).signal, last);
    }
  }
}
