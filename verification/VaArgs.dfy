/**
 Parsing call arguments against a specifier string in which one marker may stand for any number
 of arguments: the string is counted first, then the arguments are handed out.
 */
module VaArgs {

  datatype Option<T> = None | Some(value: T)

  /**
   A piece of a specifier string: a parameter with its modifiers, the optional bar, a marker, or a
   modifier that follows no parameter.
   */
  datatype Part = Param(letter: char, mods: string) | Bar | Marker(plus: bool) | Stray(mod: char)

  predicate Counted(c: char) {
    c == 'l' || c == 'd' || c == 's' || c == 'b' || c == 'r' || c == 'a' || c == 'o' || c ==
    'O' || c == 'z' || c == 'Z' || c == 'C' || c == 'h' || c == 'f' || c == 'A' || c == 'H' ||
    c == 'p' || c == 'S' || c == 'P' || c == 'L'
  }

  /** A letter that is counted can be parsed, except for the retired Z. */
  predicate Parsable(c: char) { Counted(c) && c != 'Z' }

  predicate IsMod(c: char) { c == '/' || c == '!' }

  function PartText(part: Part): (s: string)
    ensures s != []
  {
    match part
    case Param(letter, mods) => [letter] + mods
    case Bar => "|"
    case Marker(plus) => if plus then "+" else "*"
    case Stray(mod) => [mod]
  }

  function Text(parts: seq<Part>): string {
    if parts == [] then "" else PartText(parts[0]) + Text(parts[1..])
  }

  predicate PartOk(part: Part) {
    && (part.Param? ==> Counted(part.letter) && forall c :: c in part.mods ==> IsMod(c))
    && (part.Stray? ==> IsMod(part.mod))
  }

  /** Known characters, at most one marker, and every modifier behind a parameter belongs to it. */
  predicate WellSpelled(parts: seq<Part>) {
    && (forall i :: 0 <= i < |parts| ==> PartOk(parts[i]))
    && (forall i, j :: 0 <= i < j < |parts| && parts[i].Marker? ==> !parts[j].Marker?)
    && (forall i :: 0 < i < |parts| && parts[i].Stray? ==> !parts[i - 1].Param?)
  }

  // ---- which argument belongs to which piece ----

  /** The parameters among the first p pieces. */
  function Items(parts: seq<Part>, p: nat): (items: seq<Part>)
    requires p <= |parts|
  {
    if p == 0 then [] else Items(parts, p - 1) + (if parts[p - 1].Param? then [parts[p - 1]] else [])
  }

  function All(parts: seq<Part>): seq<Part> { Items(parts, |parts|) }

  /** Where the marker is, or the length. */
  function MarkerFrom(parts: seq<Part>, p: nat): (m: nat)
    requires p <= |parts|
    ensures p <= m <= |parts| && (m < |parts| ==> parts[m].Marker?)
    ensures forall i :: p <= i < m ==> !parts[i].Marker?
    decreases |parts| - p
  {
    if p == |parts| || parts[p].Marker? then p else MarkerFrom(parts, p + 1)
  }

  function MarkerAt(parts: seq<Part>): nat { MarkerFrom(parts, 0) }

  predicate HasMarker(parts: seq<Part>) { MarkerFrom(parts, 0) < |parts| }

  /** The number of parameters in front of the marker. */
  function Before(parts: seq<Part>): nat { |Items(parts, MarkerFrom(parts, 0))| }

  /** The number of arguments the marker stands for: those no parameter claims. */
  function Window(parts: seq<Part>, n: int): nat {
    if HasMarker(parts) && n > |All(parts)| then n - |All(parts)| else 0
  }

  /** How an argument was used. */
  datatype Use = Fixed(arg: int, param: Part) | Variable(arg: int)

  /** How argument k of n is to be used. */
  function Expected(parts: seq<Part>, n: int, k: nat): (u: Use)
    requires k < n && n <= |All(parts)| + Window(parts, n)
    ensures u.arg == k
  {
    var before, w := Before(parts), Window(parts, n);
    ItemsMonotone(parts, MarkerAt(parts), |parts|);
    if k < before then Fixed(k, All(parts)[k])
    else if k < before + w then Variable(k)
    else Fixed(k, All(parts)[k - w])
  }

  lemma {:induction false} ItemsMonotone(parts: seq<Part>, p: nat, q: nat)
    requires p <= q <= |parts|
    ensures Items(parts, p) <= Items(parts, q)
    decreases q
  {
    if p < q {
      ItemsMonotone(parts, p, q - 1);
    }
  }

  lemma ItemAt(parts: seq<Part>, p: nat)
    requires p < |parts| && parts[p].Param?
    ensures |Items(parts, p)| < |All(parts)| && All(parts)[|Items(parts, p)|] == parts[p]
  {
    ItemsMonotone(parts, p + 1, |parts|);
  }

  /**
   What was counted in front of the last bar among the first p pieces, a plus counting as one; -1 without
   a bar.
   */
  function Least(parts: seq<Part>, p: nat): int
    requires p <= |parts|
  {
    if p == 0 then -1
    else if parts[p - 1].Bar? then |Items(parts, p - 1)| + Pluses(parts, p - 1)
    else Least(parts, p - 1)
  }

  /** The parameters that may not be left out: those in front of the last bar, or all. */
  function Mandatory(parts: seq<Part>, p: nat): nat
    requires p <= |parts|
  {
    if p == 0 then |Items(parts, |parts|)|
    else if parts[p - 1].Bar? then |Items(parts, p - 1)|
    else Mandatory(parts, p - 1)
  }

  function Pluses(parts: seq<Part>, p: nat): nat
    requires p <= |parts|
  {
    if p == 0 then 0 else Pluses(parts, p - 1) + (if parts[p - 1] == Marker(true) then 1 else 0)
  }

  function Minimum(parts: seq<Part>): int {
    if Least(parts, |parts|) < 0 then |All(parts)| + Pluses(parts, |parts|) else Least(parts, |parts|)
  }

  /** The calls accepted: enough arguments and, without a marker, not too many. */
  predicate CountOk(parts: seq<Part>, n: int) {
    n >= Minimum(parts) && (HasMarker(parts) || n <= |All(parts)|)
  }

  // ---- what makes a call fail though its arguments are enough and convert ----

  /** The number of arguments handed out when the p-th piece is reached. */
  function Reached(parts: seq<Part>, n: int, p: nat): nat
    requires p <= |parts|
  {
    |Items(parts, p)| + (if p > MarkerAt(parts) then Window(parts, n) else 0)
  }

  /**
   The p-th piece cannot be parsed: a retired letter, a modifier without a parameter, a bar behind a bar,
   or a bar directly behind a marker that takes no argument.
   */
  predicate Blocks(parts: seq<Part>, n: int, p: nat)
    requires p < |parts|
  {
    match parts[p]
    case Param(letter, _) => !Parsable(letter)
    case Stray(_) => true
    case Bar => p > 0 && (parts[p - 1].Bar? || (parts[p - 1].Marker? && Window(parts, n) == 0))
    case Marker(_) => false
  }

  /** No such piece is reached by one of the first k arguments. */
  predicate ClearBefore(parts: seq<Part>, n: int, k: int) {
    forall p :: 0 <= p < |parts| && Reached(parts, n, p) < k ==> !Blocks(parts, n, p)
  }

  /** No such piece is reached by an argument. */
  predicate Clear(parts: seq<Part>, n: int) { ClearBefore(parts, n, n) }

  // ---- the first pass: counting ----

  datatype Counts = Counts(min: int, max: int, post: int, marker: bool)

  function CountOne(st: Counts, c: char): Option<Counts> {
    if Counted(c) then Some(st.(max := st.max + 1))
    else if c == '|' then Some(st.(min := st.max))
    else if IsMod(c) then Some(st)
    else if c == '*' || c == '+' then
      if st.marker then None
      else
        var max := if c == '+' then st.max + 1 else st.max;
        Some(Counts(st.min, max, max, true))
    else None
  }

  function CountAll(st: Counts, s: string): Option<Counts>
    decreases |s|
  {
    if s == "" then Some(st)
    else match CountOne(st, s[0])
      case None => None
      case Some(st') => CountAll(st', s[1..])
  }

  function CountPart(st: Counts, part: Part): Counts {
    match part
    case Param(_, _) => st.(max := st.max + 1)
    case Bar => st.(min := st.max)
    case Marker(plus) => var max := if plus then st.max + 1 else st.max; Counts(st.min, max, max, true)
    case Stray(_) => st
  }

  /** What has been counted after the first p pieces. */
  function Tally(parts: seq<Part>, p: nat): Counts
    requires p <= |parts|
  {
    if p == 0 then Counts(-1, 0, 0, false) else CountPart(Tally(parts, p - 1), parts[p - 1])
  }

  lemma Apart()
    ensures !Counted('|') && !Counted('*') && !Counted('+') && !Counted('/') && !Counted('!')
    ensures !IsMod('|') && !IsMod('*') && !IsMod('+')
    ensures forall c :: IsMod(c) ==> c == '/' || c == '!'
    ensures forall c :: Parsable(c) ==> Counted(c)
  {}

  lemma CountFirst(st: Counts, c: char, s: string)
    ensures CountAll(st, [c] + s) == match CountOne(st, c) case None => None case Some(st') => CountAll(st', s)
  {
    hide CountOne;
    assert ([c] + s)[0] == c && ([c] + s)[1..] == s;
  }

  lemma {:induction false} CountMods(st: Counts, mods: string, s: string)
    requires forall c :: c in mods ==> IsMod(c)
    ensures CountAll(st, mods + s) == CountAll(st, s)
  {
    hide CountAll, Counted;
    if mods == "" {
      assert mods + s == s;
    } else {
      Apart();
      assert mods + s == [mods[0]] + (mods[1..] + s);
      CountFirst(st, mods[0], mods[1..] + s);
      CountMods(st, mods[1..], s);
    }
  }

  lemma CountPiece(st: Counts, part: Part, s: string)
    requires PartOk(part) && (part.Marker? ==> !st.marker)
    ensures CountAll(st, PartText(part) + s) == CountAll(CountPart(st, part), s)
  {
    hide CountAll, Counted;
    Apart();
    match part
    case Param(letter, mods) =>
      assert PartText(part) + s == [letter] + (mods + s);
      CountFirst(st, letter, mods + s);
      CountMods(st.(max := st.max + 1), mods, s);
    case Bar =>
      CountFirst(st, '|', s);
    case Marker(plus) =>
      CountFirst(st, if plus then '+' else '*', s);
    case Stray(mod) =>
      CountFirst(st, mod, s);
  }

  lemma {:induction false} TallyMarker(parts: seq<Part>, p: nat)
    requires p <= |parts|
    ensures Tally(parts, p).marker <==> exists i :: 0 <= i < p && parts[i].Marker?
    decreases p
  {
    if p > 0 {
      TallyMarker(parts, p - 1);
    }
  }

  lemma CountNone(st: Counts)
    ensures CountAll(st, "") == Some(st)
  {}

  lemma {:induction false} CountsTally(parts: seq<Part>, p: nat)
    requires WellSpelled(parts) && p <= |parts|
    ensures CountAll(Tally(parts, p), Text(parts[p..])) == Some(Tally(parts, |parts|))
    decreases |parts| - p
  {
    hide CountAll, CountPart, PartText, PartOk;
    if p == |parts| {
      CountNone(Tally(parts, p));
    } else {
      assert parts[p..][0] == parts[p] && parts[p..][1..] == parts[p + 1..];
      TallyMarker(parts, p);
      CountPiece(Tally(parts, p), parts[p], Text(parts[p + 1..]));
      CountsTally(parts, p + 1);
    }
  }

  lemma {:induction false} TallyIs(parts: seq<Part>, p: nat)
    requires WellSpelled(parts) && p <= |parts|
    ensures var t := Tally(parts, p);
            && t.max == |Items(parts, p)| + Pluses(parts, p)
            && t.min == Least(parts, p)
            && (p <= MarkerAt(parts) ==> !t.marker && Pluses(parts, p) == 0)
            && (p > MarkerAt(parts) ==> t.marker && t.post == Before(parts) + Pluses(parts, p))
    decreases p
  {
    if p > 0 {
      TallyIs(parts, p - 1);
      assert MarkerAt(parts) < |parts| ==> parts[MarkerAt(parts)].Marker?;
    }
  }

  method CountSpec(spec: string) returns (counts: Option<Counts>)
    ensures counts == CountAll(Counts(-1, 0, 0, false), spec)
  {
    hide Counted, IsMod;
    var st, k := Counts(-1, 0, 0, false), 0;
    while k < |spec|
      invariant k <= |spec|
      invariant CountAll(Counts(-1, 0, 0, false), spec) == CountAll(st, spec[k..])
    {
      var c := spec[k];
      if Counted(c) {
        st := st.(max := st.max + 1);
      } else if c == '|' {
        st := st.(min := st.max);
      } else if IsMod(c) {
      } else if c == '*' || c == '+' {
        if st.marker {
          return None;
        }
        st := st.(marker := true);
        if c == '+' {
          st := st.(max := st.max + 1);
        }
        st := st.(post := st.max);
      } else {
        return None;
      }
      k := k + 1;
    }
    return Some(st);
  }

  /** Where the modifiers that start at k end. */
  function ModsEnd(spec: string, k: nat): (e: nat)
    requires k <= |spec|
    ensures k <= e <= |spec|
    decreases |spec| - k
  {
    if k == |spec| || !IsMod(spec[k]) then k else ModsEnd(spec, k + 1)
  }

  /** Whether argument arg converts as the letter with its modifiers asks; what a value is stays open. */
  type Converter = (int, char, string) -> bool

  /** Parses one argument at the cursor and moves the cursor behind its specifier. */
  method ParseArg(arg: int, spec: string, cursor: nat, converts: Converter) returns (ok: bool, next: nat)
    requires cursor <= |spec|
    ensures ok <==> cursor < |spec| && Parsable(spec[cursor])
                    && converts(arg, spec[cursor], spec[cursor + 1..ModsEnd(spec, cursor + 1)])
    ensures next == if ok then ModsEnd(spec, cursor + 1) else cursor
  {
    hide Counted, IsMod;
    if cursor == |spec| {
      return false, cursor;
    }
    var walk := cursor + 1;
    while walk < |spec| && IsMod(spec[walk])
      invariant cursor < walk <= |spec|
      invariant ModsEnd(spec, cursor + 1) == ModsEnd(spec, walk)
    {
      walk := walk + 1;
    }
    if !Parsable(spec[cursor]) || !converts(arg, spec[cursor], spec[cursor + 1..walk]) {
      return false, cursor;
    }
    return true, walk;
  }

  // ---- the second pass: handing out the arguments ----

  /** The caller's variadic slot: not reached, set to nothing, or set to a run of arguments. */
  datatype Varargs = Untouched | Null(count: nat) | Block(first: int, count: nat)

  datatype Outcome = BadSpec | WrongCount | Missing | Failed | Parsed

  function Variables(i: int, count: nat): (u: seq<Use>)
    ensures |u| == count
  {
    seq(count, j requires 0 <= j < count => Variable(i + j))
  }

  function ExpectedUses(parts: seq<Part>, n: nat): (u: seq<Use>)
    requires n <= |All(parts)| + Window(parts, n)
    ensures |u| == n
  {
    seq(n, k requires 0 <= k < n => Expected(parts, n, k))
  }

  predicate Converts(u: Use, converts: Converter) {
    u.Fixed? && u.param.Param? ==> converts(u.arg, u.param.letter, u.param.mods)
  }

  predicate AllConvert(uses: seq<Use>, converts: Converter) {
    forall k :: 0 <= k < |uses| ==> Converts(uses[k], converts)
  }

  /** What the slot holds once n arguments have been handed out. */
  function Slot(parts: seq<Part>, n: int): Varargs {
    if !HasMarker(parts) || n <= Before(parts) then Untouched
    else if Window(parts, n) > 0 then Block(Before(parts), Window(parts, n))
    else Null(0)
  }

  /** The cursor stands at the p-th piece. */
  ghost predicate At(parts: seq<Part>, spec: string, cursor: nat, p: nat) {
    p <= |parts| && cursor <= |spec| && spec[cursor..] == Text(parts[p..])
  }

  lemma AtPiece(parts: seq<Part>, spec: string, cursor: nat, p: nat)
    requires WellSpelled(parts) && At(parts, spec, cursor, p)
    ensures cursor < |spec| <==> p < |parts|
    ensures p < |parts| ==>
              var c := spec[cursor];
              && (c == '|' <==> parts[p].Bar?)
              && ((c == '*' || c == '+') <==> parts[p].Marker?)
              && (parts[p].Param? <==> Counted(c))
              && (parts[p].Param? ==> parts[p].letter == c)
              && (parts[p].Stray? <==> IsMod(c))
    ensures p < |parts| && !parts[p].Param? ==> At(parts, spec, cursor + 1, p + 1)
  {
    if p < |parts| {
      assert parts[p..][0] == parts[p] && parts[p..][1..] == parts[p + 1..];
      assert spec[cursor..][0] == spec[cursor] == PartText(parts[p])[0];
      if !parts[p].Param? {
        assert spec[cursor + 1..] == spec[cursor..][1..];
      }
    }
  }

  lemma {:induction false} ModsStop(spec: string, k: nat, e: nat)
    requires k <= e <= |spec| && forall i :: k <= i < e ==> IsMod(spec[i])
    requires e < |spec| ==> !IsMod(spec[e])
    ensures ModsEnd(spec, k) == e
    decreases e - k
  {
    if k < e {
      ModsStop(spec, k + 1, e);
    }
  }

  lemma Tail(spec: string, cursor: nat, c: char, mods: string, rest: string)
    requires cursor <= |spec| && spec[cursor..] == [c] + mods + rest
    ensures var e := cursor + 1 + |mods|;
            e <= |spec| && spec[cursor] == c && spec[cursor + 1..e] == mods && spec[e..] == rest
  {
    var e := cursor + 1 + |mods|;
    var tail := spec[cursor..];
    assert |tail| == 1 + |mods| + |rest|;
    assert spec[cursor] == tail[0] && spec[cursor + 1..e] == tail[1..1 + |mods|] && spec[e..] == tail[1 + |mods|..];
  }

  lemma AtText(parts: seq<Part>, p: nat)
    requires p < |parts| && parts[p].Param?
    ensures Text(parts[p..]) == [parts[p].letter] + parts[p].mods + Text(parts[p + 1..])
  {
    assert parts[p..][0] == parts[p] && parts[p..][1..] == parts[p + 1..];
  }

  lemma AtParam(parts: seq<Part>, spec: string, cursor: nat, p: nat)
    requires WellSpelled(parts) && At(parts, spec, cursor, p) && p < |parts| && parts[p].Param?
    ensures cursor < |spec| && spec[cursor] == parts[p].letter
    ensures spec[cursor + 1..ModsEnd(spec, cursor + 1)] == parts[p].mods
    ensures At(parts, spec, ModsEnd(spec, cursor + 1), p + 1)
  {
    hide Counted, IsMod, Text, Parsable;
    var mods := parts[p].mods;
    var e := cursor + 1 + |mods|;
    AtText(parts, p);
    Tail(spec, cursor, parts[p].letter, mods, Text(parts[p + 1..]));
    assert PartOk(parts[p]);
    forall i | cursor + 1 <= i < e ensures IsMod(spec[i]) {
      assert spec[i] == spec[cursor + 1..e][i - cursor - 1];
      assert spec[i] in mods;
    }
    AtPiece(parts, spec, e, p + 1);
    ModsStop(spec, cursor + 1, e);
  }

  /** A call whose number of arguments the specifiers accept. */
  ghost predicate Fits(parts: seq<Part>, n: int) {
    WellSpelled(parts) && 0 <= n <= |All(parts)| + Window(parts, n)
  }

  /** Every argument was used as expected, once and in order. */
  ghost predicate Done(parts: seq<Part>, n: int, uses: seq<Use>, varargs: Varargs, converts: Converter)
    requires Fits(parts, n)
  {
    uses == ExpectedUses(parts, n) && varargs == Slot(parts, n) && AllConvert(uses, converts) && Clear(parts, n)
  }

  /**
   The first argument that does not convert, or meets a piece that cannot be parsed, ended the call and the
   slot was emptied.
   */
  ghost predicate Stuck(parts: seq<Part>, n: int, uses: seq<Use>, varargs: Varargs, converts: Converter)
    requires Fits(parts, n)
  {
    && |uses| < n && uses == ExpectedUses(parts, n)[..|uses|] && !varargs.Block?
    && AllConvert(uses, converts) && ClearBefore(parts, n, |uses|)
    && (!Converts(ExpectedUses(parts, n)[|uses|], converts) || BlockedAt(parts, n, |uses|))
  }

  predicate BlockedAt(parts: seq<Part>, n: int, k: nat) {
    exists p :: 0 <= p < |parts| && Reached(parts, n, p) == k && Blocks(parts, n, p)
  }

  /** Between two arguments: the cursor, the arguments used and the slot agree. */
  ghost predicate Between(parts: seq<Part>, n: int, spec: string, cursor: nat, p: nat, uses: seq<Use>, varargs: Varargs)
    requires Fits(parts, n)
  {
    && At(parts, spec, cursor, p)
    && |uses| == Reached(parts, n, p) <= n
    && uses == ExpectedUses(parts, n)[..|uses|]
    && varargs == (if p > MarkerAt(parts) then Slot(parts, n) else Untouched)
    && (p > MarkerAt(parts) ==> n > Before(parts))
  }

  lemma AtStart(parts: seq<Part>, n: int, spec: string)
    requires Fits(parts, n) && spec == Text(parts)
    ensures Between(parts, n, spec, 0, 0, [], Untouched)
  {
    assert parts[0..] == parts && spec[0..] == spec;
  }

  /** As long as arguments are left there is a piece left. */
  lemma MoreToCome(parts: seq<Part>, n: int, spec: string, cursor: nat, p: nat, uses: seq<Use>, varargs: Varargs)
    requires Fits(parts, n) && Between(parts, n, spec, cursor, p, uses, varargs)
    ensures p <= |parts| && (p == |parts| ==> |uses| == n)
  {}

  lemma AtEnd(parts: seq<Part>, n: int, spec: string, cursor: nat, p: nat, uses: seq<Use>, varargs: Varargs)
    requires Fits(parts, n) && Between(parts, n, spec, cursor, p, uses, varargs) && |uses| == n
    ensures uses == ExpectedUses(parts, n) && varargs == Slot(parts, n)
  {
    ItemsMonotone(parts, p, |parts|);
    if p <= MarkerAt(parts) {
      ItemsMonotone(parts, p, MarkerAt(parts));
    }
  }

  lemma SkipBar(parts: seq<Part>, n: int, spec: string, cursor: nat, p: nat, uses: seq<Use>, varargs: Varargs)
    requires Fits(parts, n) && Between(parts, n, spec, cursor, p, uses, varargs)
    requires p < |parts| && parts[p].Bar?
    ensures Between(parts, n, spec, cursor + 1, p + 1, uses, varargs)
    ensures p + 1 < |parts| && parts[p + 1].Bar? ==> Blocks(parts, n, p + 1)
    ensures Turn(parts, n, p) ==> !Blocks(parts, n, p)
  {
    AtPiece(parts, spec, cursor, p);
    assert MarkerAt(parts) < |parts| ==> parts[MarkerAt(parts)].Marker?;
  }

  lemma PassMarker(parts: seq<Part>, n: int, spec: string, cursor: nat, p: nat, uses: seq<Use>, varargs: Varargs, count: int)
    requires Fits(parts, n) && Between(parts, n, spec, cursor, p, uses, varargs)
    requires p < |parts| && parts[p].Marker? && |uses| < n && count == n - |uses| - (|All(parts)| - Before(parts))
    ensures p == MarkerAt(parts) && varargs == Untouched
    ensures count > 0 ==> Between(parts, n, spec, cursor + 1, p + 1, uses + Variables(|uses|, count), Block(|uses|, count))
    ensures count <= 0 ==> Between(parts, n, spec, cursor + 1, p + 1, uses, Null(0))
    ensures count > 0 <==> Window(parts, n) > 0
    ensures p + 1 < |parts| ==> !parts[p + 1].Marker?
    ensures count <= 0 && p + 1 < |parts| && parts[p + 1].Bar? ==> Blocks(parts, n, p + 1)
  {
    AtPiece(parts, spec, cursor, p);
    assert MarkerAt(parts) < |parts| ==> parts[MarkerAt(parts)].Marker?;
    ItemsMonotone(parts, MarkerAt(parts), |parts|);
    if count > 0 {
      var more := uses + Variables(|uses|, count);
      assert more == ExpectedUses(parts, n)[..|more|];
    }
  }

  lemma TakeParam(parts: seq<Part>, n: int, spec: string, cursor: nat, p: nat, uses: seq<Use>, varargs: Varargs)
    requires Fits(parts, n) && Between(parts, n, spec, cursor, p, uses, varargs)
    requires p < |parts| && parts[p].Param? && |uses| < n
    ensures ExpectedUses(parts, n)[|uses|] == Fixed(|uses|, parts[p])
    ensures cursor < |spec| && spec[cursor] == parts[p].letter
    ensures var e := ModsEnd(spec, cursor + 1);
            && spec[cursor + 1..e] == parts[p].mods
            && Between(parts, n, spec, e, p + 1, uses + [Fixed(|uses|, parts[p])], varargs)
  {
    hide *;
    FitsIs(parts, n);
    BetweenIs(parts, n, spec, cursor, p, uses, varargs);
    AtParam(parts, spec, cursor, p);
    ExpectedAt(parts, n, p);
    var k := |uses|;
    assert uses + [Fixed(k, parts[p])] == ExpectedUses(parts, n)[..k + 1] by {
      assert ExpectedUses(parts, n)[..k + 1] == ExpectedUses(parts, n)[..k] + [ExpectedUses(parts, n)[k]];
    }
    BetweenNext(parts, n, spec, ModsEnd(spec, cursor + 1), p, uses + [Fixed(k, parts[p])], varargs);
  }

  lemma FitsIs(parts: seq<Part>, n: int)
    requires Fits(parts, n)
    ensures 0 <= n <= |All(parts)| + Window(parts, n)
  {}

  lemma BetweenIs(parts: seq<Part>, n: int, spec: string, cursor: nat, p: nat, uses: seq<Use>, varargs: Varargs)
    requires Fits(parts, n) && Between(parts, n, spec, cursor, p, uses, varargs)
    ensures WellSpelled(parts) && At(parts, spec, cursor, p) && p <= |parts|
    ensures |uses| == Reached(parts, n, p) <= n
    ensures uses == ExpectedUses(parts, n)[..|uses|]
    ensures varargs == (if p > MarkerAt(parts) then Slot(parts, n) else Untouched)
    ensures p > MarkerAt(parts) ==> n > Before(parts)
  {
    hide WellSpelled, ExpectedUses, Slot, Items, MarkerAt;
  }

  lemma BetweenNext(parts: seq<Part>, n: int, spec: string, cursor: nat, p: nat, uses: seq<Use>, varargs: Varargs)
    requires Fits(parts, n) && p < |parts| && At(parts, spec, cursor, p + 1) && parts[p].Param?
    requires |uses| == Reached(parts, n, p + 1) <= n && uses == ExpectedUses(parts, n)[..|uses|]
    requires varargs == (if p > MarkerAt(parts) then Slot(parts, n) else Untouched)
    requires p > MarkerAt(parts) ==> n > Before(parts)
    ensures Between(parts, n, spec, cursor, p + 1, uses, varargs)
  {
    hide WellSpelled, ExpectedUses, Slot, Items, At;
  }

  /** The next parameter takes the next argument. */
  lemma ExpectedAt(parts: seq<Part>, n: int, p: nat)
    requires Fits(parts, n) && p < |parts| && parts[p].Param? && Reached(parts, n, p) < n
    ensures Reached(parts, n, p + 1) == Reached(parts, n, p) + 1
    ensures ExpectedUses(parts, n)[Reached(parts, n, p)] == Fixed(Reached(parts, n, p), parts[p])
  {
    hide WellSpelled;
    ItemAt(parts, p);
    ItemsMonotone(parts, MarkerAt(parts), |parts|);
    if p < MarkerAt(parts) {
      ItemsMonotone(parts, p + 1, MarkerAt(parts));
    } else {
      ItemsMonotone(parts, MarkerAt(parts), p);
    }
  }

  /** Pieces in front of the p-th that were reached could be parsed. */
  ghost predicate ClearTo(parts: seq<Part>, n: int, p: nat)
    requires p <= |parts|
  {
    forall q :: 0 <= q < p && Reached(parts, n, q) < n ==> !Blocks(parts, n, q)
  }

  /** The p-th piece is the first one looked at for an argument. */
  ghost predicate Turn(parts: seq<Part>, n: int, p: nat)
    requires p <= |parts|
  {
    p == 0 || parts[p - 1].Param? || (parts[p - 1].Marker? && Window(parts, n) > 0)
  }

  lemma ClearStart(parts: seq<Part>, n: int)
    ensures ClearTo(parts, n, 0) && Turn(parts, n, 0)
  {}

  lemma ClearStep(parts: seq<Part>, n: int, p: nat)
    requires p < |parts| && ClearTo(parts, n, p) && !Blocks(parts, n, p)
    ensures ClearTo(parts, n, p + 1)
    ensures parts[p].Param? || (parts[p].Marker? && Window(parts, n) > 0) ==> Turn(parts, n, p + 1)
  {
    hide Blocks, Reached;
  }

  lemma MarkerClear(parts: seq<Part>, n: int, p: nat)
    requires p < |parts| && parts[p].Marker?
    ensures !Blocks(parts, n, p)
  {}

  lemma ClearEnd(parts: seq<Part>, n: int, p: nat, k: int)
    requires p <= |parts| && ClearTo(parts, n, p) && Reached(parts, n, p) >= k && k <= n
    ensures ClearBefore(parts, n, k)
  {
    hide Blocks;
    forall q | p <= q < |parts| ensures Reached(parts, n, q) >= k {
      ItemsMonotone(parts, p, q);
    }
  }

  /** A piece at which no parameter can be parsed. */
  lemma Unparsed(parts: seq<Part>, n: int, p: nat)
    requires p < |parts| && !parts[p].Marker? && (parts[p].Bar? ==> Blocks(parts, n, p))
    ensures Blocks(parts, n, p) <==> !(parts[p].Param? && Parsable(parts[p].letter))
  {
    hide Parsable, Window;
  }

  lemma IsBlockedAt(parts: seq<Part>, n: int, p: nat)
    requires p < |parts| && Blocks(parts, n, p)
    ensures BlockedAt(parts, n, Reached(parts, n, p))
  {}

  lemma EndsDone(parts: seq<Part>, n: int, spec: string, cursor: nat, p: nat, uses: seq<Use>, varargs: Varargs,
                 converts: Converter)
    requires Fits(parts, n) && Between(parts, n, spec, cursor, p, uses, varargs) && |uses| == n
    requires AllConvert(uses, converts) && ClearTo(parts, n, p)
    ensures Done(parts, n, uses, varargs, converts)
  {
    hide ClearTo, ClearBefore, ExpectedUses, Slot, At;
    AtEnd(parts, n, spec, cursor, p, uses, varargs);
    BetweenIs(parts, n, spec, cursor, p, uses, varargs);
    ClearEnd(parts, n, p, n);
  }

  lemma EndsStuck(parts: seq<Part>, n: int, spec: string, cursor: nat, p: nat, uses: seq<Use>, varargs: Varargs,
                  emptied: Varargs, converts: Converter)
    requires Fits(parts, n) && Between(parts, n, spec, cursor, p, uses, varargs) && |uses| < n
    requires AllConvert(uses, converts) && !emptied.Block? && p < |parts| && ClearTo(parts, n, p)
    requires Blocks(parts, n, p) || !Converts(ExpectedUses(parts, n)[|uses|], converts)
    ensures Stuck(parts, n, uses, emptied, converts)
  {
    hide ExpectedUses, Blocks, BlockedAt, Reached, ClearTo, ClearBefore;
    ClearEnd(parts, n, p, |uses|);
    if Blocks(parts, n, p) {
      IsBlockedAt(parts, n, p);
    }
  }

  lemma Turned(k: int, part: Part, converts: Converter)
    requires part.Param?
    ensures Converts(Fixed(k, part), converts) <==> converts(k, part.letter, part.mods)
  {}

  lemma AllConvertNone(converts: Converter)
    ensures AllConvert([], converts)
  {}

  lemma AllConvertOne(uses: seq<Use>, u: Use, converts: Converter)
    requires AllConvert(uses, converts) && Converts(u, converts)
    ensures AllConvert(uses + [u], converts)
  {}

  lemma AllConvertVariables(uses: seq<Use>, i: int, count: nat, converts: Converter)
    requires AllConvert(uses, converts)
    ensures AllConvert(uses + Variables(i, count), converts)
  {}

  /** With arguments left the cursor stands at a piece, and its first character tells which. */
  lemma Onward(parts: seq<Part>, n: int, spec: string, cursor: nat, p: nat, uses: seq<Use>, varargs: Varargs)
    requires Fits(parts, n) && Between(parts, n, spec, cursor, p, uses, varargs) && |uses| < n
    ensures p < |parts| && cursor < |spec|
    ensures spec[cursor] == '|' <==> parts[p].Bar?
    ensures spec[cursor] == '*' || spec[cursor] == '+' <==> parts[p].Marker?
    ensures Parsable(spec[cursor]) ==> parts[p].Param? && parts[p].letter == spec[cursor]
    ensures Reached(parts, n, p) == |uses|
  {
    MoreToCome(parts, n, spec, cursor, p, uses, varargs);
    AtPiece(parts, spec, cursor, p);
  }

  /** Hands the arguments to the specifiers; the marker takes what the specifiers behind it leave. */
  method HandOut(n: int, post: nat, spec: string, converts: Converter, ghost parts: seq<Part>)
    returns (ok: bool, uses: seq<Use>, varargs: Varargs)
    ensures Fits(parts, n) && spec == Text(parts) && post == |All(parts)| - Before(parts) ==>
              if ok then Done(parts, n, uses, varargs, converts) else Stuck(parts, n, uses, varargs, converts)
  {
    hide *;
    uses, varargs := [], Untouched;
    ghost var fits := Fits(parts, n) && spec == Text(parts) && post == |All(parts)| - Before(parts);
    ghost var p := 0;
    if fits {
      AtStart(parts, n, spec);
      ClearStart(parts, n);
    }
    AllConvertNone(converts);
    var i, left, cursor := 0, n, 0;
    while left > 0
      invariant cursor <= |spec| && AllConvert(uses, converts)
      invariant fits ==> 0 <= left == n - i && i == |uses| && Between(parts, n, spec, cursor, p, uses, varargs)
      invariant fits ==> p <= |parts| && ClearTo(parts, n, p) && Turn(parts, n, p)
      decreases left
    {
      left := left - 1;
      if fits {
        Onward(parts, n, spec, cursor, p, uses, varargs);
      }
      if cursor < |spec| && spec[cursor] == '|' {
        if fits {
          SkipBar(parts, n, spec, cursor, p, uses, varargs);
          ClearStep(parts, n, p);
          p := p + 1;
          Onward(parts, n, spec, cursor + 1, p, uses, varargs);
        }
        cursor := cursor + 1;
      }
      if cursor < |spec| && (spec[cursor] == '*' || spec[cursor] == '+') {
        var count := left + 1 - post;
        if fits {
          PassMarker(parts, n, spec, cursor, p, uses, varargs, count);
          MarkerClear(parts, n, p);
          ClearStep(parts, n, p);
          p := p + 1;
        }
        cursor := cursor + 1;
        if count > 0 {
          AllConvertVariables(uses, i, count, converts);
          varargs, uses := Block(i, count), uses + Variables(i, count);
          left := left + 1 - count;
          i := i + count;
          continue;
        }
        varargs := Null(0);
        if fits {
          Onward(parts, n, spec, cursor, p, uses, varargs);
        }
      }
      if fits {
        Unparsed(parts, n, p);
        if parts[p].Param? {
          TakeParam(parts, n, spec, cursor, p, uses, varargs);
          Turned(i, parts[p], converts);
        }
      }
      ghost var slot := varargs;
      var parsed, next := ParseArg(i, spec, cursor, converts);
      if !parsed {
        if varargs.Block? {
          varargs := Null(varargs.count);
        }
        if fits {
          EndsStuck(parts, n, spec, cursor, p, uses, slot, varargs, converts);
        }
        return false, uses, varargs;
      }
      var use := Fixed(i, Param(spec[cursor], spec[cursor + 1..next]));
      Turned(i, use.param, converts);
      AllConvertOne(uses, use, converts);
      uses := uses + [use];
      cursor := next;
      if fits {
        ClearStep(parts, n, p);
        p := p + 1;
      }
      i := i + 1;
    }
    ok := true;
    if fits {
      EndsDone(parts, n, spec, cursor, p, uses, varargs, converts);
    }
  }

  lemma BeforeAll(parts: seq<Part>)
    ensures Before(parts) <= |All(parts)|
  {
    ItemsMonotone(parts, MarkerAt(parts), |parts|);
  }

  /**
   The whole call: accepted exactly when the count fits, the arguments are there, all pieces reached can be
   parsed and all arguments convert.
   */
  ghost predicate Handled(parts: seq<Part>, n: int, argCount: nat, outcome: Outcome, uses: seq<Use>,
                          varargs: Varargs, converts: Converter)
  {
    if !CountOk(parts, n) then outcome == WrongCount
    else if n > argCount then outcome == Missing
    else if !Fits(parts, n) then false
    else if Clear(parts, n) && AllConvert(ExpectedUses(parts, n), converts) then
      outcome == Parsed && Done(parts, n, uses, varargs, converts)
    else
      outcome == Failed && Stuck(parts, n, uses, varargs, converts)
  }

  lemma StuckFails(parts: seq<Part>, n: int, uses: seq<Use>, varargs: Varargs, converts: Converter)
    requires Fits(parts, n) && Stuck(parts, n, uses, varargs, converts)
    ensures !(Clear(parts, n) && AllConvert(ExpectedUses(parts, n), converts))
  {
    hide ExpectedUses, Converts, Blocks, Reached;
  }

  lemma DoneConverts(parts: seq<Part>, n: int, uses: seq<Use>, varargs: Varargs, converts: Converter)
    requires Fits(parts, n) && Done(parts, n, uses, varargs, converts)
    ensures Clear(parts, n) && AllConvert(ExpectedUses(parts, n), converts)
  {
    hide ClearBefore;
  }

  lemma CountFits(parts: seq<Part>, n: int)
    requires WellSpelled(parts) && CountOk(parts, n)
    ensures Fits(parts, n)
  {
    hide WellSpelled;
    LeastWithin(parts, |parts|);
  }

  lemma {:induction false} LeastWithin(parts: seq<Part>, p: nat)
    requires p <= |parts|
    ensures -1 <= Least(parts, p)
    ensures Mandatory(parts, p) <= |All(parts)| && (Least(parts, p) >= 0 ==> Mandatory(parts, p) <= Least(parts, p))
    ensures Least(parts, p) < 0 ==> Mandatory(parts, p) == |All(parts)|
    decreases p
  {
    if p > 0 {
      LeastWithin(parts, p - 1);
      ItemsMonotone(parts, p - 1, |parts|);
    }
  }

  lemma {:induction false} CountBounds(st: Counts, s: string)
    requires 0 <= st.post <= st.max && (!st.marker ==> st.post == 0)
    ensures match CountAll(st, s) case None => true
            case Some(c) => 0 <= c.post <= c.max && (!c.marker ==> c.post == 0)
    decreases |s|
  {
    hide Counted, IsMod;
    if s != "" && CountOne(st, s[0]).Some? {
      CountBounds(CountOne(st, s[0]).value, s[1..]);
    }
  }

  lemma BeforeNone(parts: seq<Part>)
    requires !HasMarker(parts)
    ensures Before(parts) == |All(parts)|
  {}

  /** What counting finds in a well-spelled string. */
  lemma CountsMean(parts: seq<Part>)
    requires WellSpelled(parts)
    ensures var start := Counts(-1, 0, 0, false);
            && CountAll(start, Text(parts)).Some?
            && var c := CountAll(start, Text(parts)).value;
            && c.min == Least(parts, |parts|)
            && c.max == |All(parts)| + Pluses(parts, |parts|)
            && c.marker == HasMarker(parts)
            && (c.marker ==> c.max - c.post == |All(parts)| - Before(parts))
            && (!c.marker ==> Pluses(parts, |parts|) == 0)
  {
    hide CountAll, WellSpelled;
    assert parts[0..] == parts;
    CountsTally(parts, 0);
    TallyIs(parts, |parts|);
  }

  // ---- every string the count accepts falls into pieces ----

  function Pieces(s: string): seq<Part>
    decreases |s|
  {
    if s == "" then []
    else if Counted(s[0]) then [Param(s[0], s[1..ModsEnd(s, 1)])] + Pieces(s[ModsEnd(s, 1)..])
    else
      var part := if s[0] == '|' then Bar else if s[0] == '*' then Marker(false) else if s[0] == '+' then Marker(true) else Stray(s[0]);
      [part] + Pieces(s[1..])
  }

  ghost predicate NoMarkers(parts: seq<Part>) {
    forall i :: 0 <= i < |parts| ==> !parts[i].Marker?
  }

  lemma SpelledCons(part: Part, rest: seq<Part>)
    requires WellSpelled(rest) && PartOk(part) && (part.Marker? ==> NoMarkers(rest))
    requires part.Param? && rest != [] ==> !rest[0].Stray?
    ensures WellSpelled([part] + rest)
    ensures NoMarkers(rest) && !part.Marker? ==> NoMarkers([part] + rest)
    ensures Text([part] + rest) == PartText(part) + Text(rest)
  {
    hide PartOk, PartText;
    var parts := [part] + rest;
    assert parts[1..] == rest;
    forall i, j | 0 <= i < j < |parts| && parts[i].Marker? ensures !parts[j].Marker? {
      assert parts[j] == rest[j - 1];
      if i > 0 {
        assert parts[i] == rest[i - 1];
      }
    }
  }

  lemma {:induction false} ModsAre(s: string, k: nat)
    requires k <= |s|
    ensures forall i :: k <= i < ModsEnd(s, k) ==> IsMod(s[i])
    ensures ModsEnd(s, k) < |s| ==> !IsMod(s[ModsEnd(s, k)])
    decreases |s| - k
  {
    hide IsMod;
    if k < |s| && IsMod(s[k]) {
      ModsAre(s, k + 1);
    }
  }

  lemma FirstPiece(s: string)
    requires s != "" && !IsMod(s[0])
    ensures Pieces(s) != [] && (Counted(s[0]) || s[0] == '|' || s[0] == '*' || s[0] == '+' ==> !Pieces(s)[0].Stray?)
  {
    hide Counted;
  }

  lemma {:induction false} CountSuffix(st: Counts, s: string, k: nat)
    requires k <= |s| && CountAll(st, s).Some? && forall i :: 0 <= i < k ==> IsMod(s[i])
    ensures CountAll(st, s[k..]) == CountAll(st, s)
  {
    CountMods(st, s[..k], s[k..]);
    assert s[..k] + s[k..] == s;
  }

  lemma CountHead(st: Counts, s: string)
    requires s != "" && CountAll(st, s).Some?
    ensures CountOne(st, s[0]).Some? && CountAll(CountOne(st, s[0]).value, s[1..]).Some?
    ensures Counted(s[0]) || s[0] == '|' || s[0] == '*' || s[0] == '+' || IsMod(s[0])
    ensures (s[0] == '*' || s[0] == '+') && !Counted(s[0]) && !IsMod(s[0]) ==> !st.marker && CountOne(st, s[0]).value.marker
    ensures Counted(s[0]) || s[0] == '|' || IsMod(s[0]) ==> CountOne(st, s[0]).value.marker == st.marker
  {
    hide Counted, IsMod;
  }

  /** The pieces of a string that can be counted spell it. */
  lemma {:induction false} PiecesSpell(st: Counts, s: string)
    requires CountAll(st, s).Some?
    ensures Text(Pieces(s)) == s && WellSpelled(Pieces(s)) && (st.marker ==> NoMarkers(Pieces(s)))
    decreases |s|
  {
    hide Counted, IsMod, CountAll, CountOne, WellSpelled, Text;
    Apart();
    if s == "" {
      NoPieces();
    } else {
      CountHead(st, s);
      var st' := CountOne(st, s[0]).value;
      if Counted(s[0]) {
        var e := ModsEnd(s, 1);
        ModsAre(s, 1);
        CountSuffix(st', s[1..], e - 1);
        assert s[1..][e - 1..] == s[e..];
        PiecesSpell(st', s[e..]);
        if e < |s| {
          CountHead(st', s[e..]);
          FirstPiece(s[e..]);
        }
        assert [s[0]] + s[1..e] + s[e..] == s;
        ModsIn(s, e);
        SpelledCons(Param(s[0], s[1..e]), Pieces(s[e..]));
      } else {
        PiecesSpell(st', s[1..]);
        assert [s[0]] + s[1..] == s;
        SpelledCons(Pieces(s)[0], Pieces(s[1..]));
      }
    }
  }

  lemma ModsIn(s: string, e: nat)
    requires 1 <= e <= |s| && forall i :: 1 <= i < e ==> IsMod(s[i])
    ensures forall c :: c in s[1..e] ==> IsMod(c)
  {
    hide IsMod;
  }

  lemma NoPieces()
    ensures Pieces("") == [] && Text(Pieces("")) == "" && WellSpelled(Pieces("")) && NoMarkers(Pieces(""))
  {}

  /**
   A call with numArgs arguments, for every specifier string: a string that cannot be counted is refused;
   else the outcome depends on the counts, on the pieces the arguments reach and on which arguments
   convert, and an accepted call uses every argument as its position and the window demand.
   */
  method ParseVaArgs(numArgs: int, argCount: nat, spec: string, converts: Converter)
    returns (outcome: Outcome, uses: seq<Use>, varargs: Varargs)
    ensures outcome == BadSpec <==> CountAll(Counts(-1, 0, 0, false), spec) == None
    ensures outcome != BadSpec ==>
              && Text(Pieces(spec)) == spec && WellSpelled(Pieces(spec))
              && Handled(Pieces(spec), numArgs, argCount, outcome, uses, varargs, converts)
  {
    hide WellSpelled, CountAll, Text, HasMarker, Fits, Least, Pluses, ExpectedUses, AllConvert, Done, Stuck, Window, Pieces, Clear;
    uses, varargs := [], Untouched;
    var counts := CountSpec(spec);
    CountBounds(Counts(-1, 0, 0, false), spec);
    if counts.None? {
      return BadSpec, uses, varargs;
    }
    ghost var parts := Pieces(spec);
    PiecesSpell(Counts(-1, 0, 0, false), spec);
    var Counts(min, max, post, marker) := counts.value;
    CountsMean(parts);
    BeforeAll(parts);
    if !marker {
      BeforeNone(parts);
    }
    if min < 0 {
      min := max;
    }
    if marker {
      post := max - post;
      max := -1;
    }
    if numArgs < min || (numArgs > max && max >= 0) {
      return WrongCount, uses, varargs;
    }
    if numArgs > argCount {
      return Missing, uses, varargs;
    }
    CountFits(parts, numArgs);
    var ok: bool;
    ok, uses, varargs := HandOut(numArgs, post, spec, converts, parts);
    outcome := if ok then Parsed else Failed;
    if ok {
      DoneConverts(parts, numArgs, uses, varargs, converts);
    } else {
      StuckFails(parts, numArgs, uses, varargs, converts);
    }
  }

  // ---- strings that accept a number of arguments they cannot parse ----

  const L: Part := Param('l', "")

  lemma NextPiece(c: char, part: Part, s: string)
    requires part == (if c == '|' then Bar else if c == '*' then Marker(false) else Param(c, ""))
    requires c == '|' || c == '*' || (Counted(c) && (s != "" ==> !IsMod(s[0])))
    ensures Pieces([c] + s) == [part] + Pieces(s)
  {
    hide Counted;
    Apart();
    var t := [c] + s;
    assert t[0] == c && t[1..] == s;
    if c != '|' && c != '*' {
      assert s != "" ==> t[1] == s[0];
      assert ModsEnd(t, 1) == 1;
      assert t[1..1] == "";
    }
  }

  /** What one more piece adds to the parameters, the pluses and the least number of arguments. */
  lemma OneMore(parts: seq<Part>, p: nat)
    requires p < |parts|
    ensures Items(parts, 0) == [] && Pluses(parts, 0) == 0 && Least(parts, 0) == -1
    ensures Items(parts, p + 1) == Items(parts, p) + (if parts[p].Param? then [parts[p]] else [])
    ensures Pluses(parts, p + 1) == Pluses(parts, p) + (if parts[p] == Marker(true) then 1 else 0)
    ensures Least(parts, p + 1) == if parts[p].Bar? then |Items(parts, p)| + Pluses(parts, p) else Least(parts, p)
  {}

  /** l||l with two arguments: the count fits, but the second argument meets the second bar. */
  lemma DoubledBar()
    ensures var parts := Pieces("l||l");
            parts == [L, Bar, Bar, L] && CountOk(parts, 2) && !Clear(parts, 2) && CountOk(parts, 1) && Clear(parts, 1)
  {
    hide Pieces, Items, Pluses, Least, MarkerFrom;
    var parts := [L, Bar, Bar, L];
    SpelledDoubled();
    OneMore(parts, 0);
    OneMore(parts, 1);
    OneMore(parts, 2);
    OneMore(parts, 3);
    NoMarkerIn(parts);
    assert Reached(parts, 2, 2) == 1 && Blocks(parts, 2, 2);
    assert Reached(parts, 1, 0) == 0 && Reached(parts, 1, 1) == 1 && Reached(parts, 1, 2) == 1 && Reached(parts, 1, 3) == 1;
  }

  lemma NoMarkerIn(parts: seq<Part>)
    requires NoMarkers(parts)
    ensures MarkerAt(parts) == |parts| && !HasMarker(parts)
  {
    hide MarkerFrom;
  }

  lemma SpelledDoubled()
    ensures Pieces("l||l") == [L, Bar, Bar, L]
  {
    hide Pieces, ModsEnd;
    NoPieces();
    NextPiece('l', L, "");
    NextPiece('|', Bar, "l");
    NextPiece('|', Bar, "|l");
    NextPiece('l', L, "||l");
    assert "l||l" == ['l'] + "||l" && "||l" == ['|'] + "|l" && "|l" == ['|'] + "l" && "l" == ['l'] + "";
  }

  lemma SpelledBehind()
    ensures Pieces("*|l") == [Marker(false), Bar, L]
  {
    hide Pieces, ModsEnd;
    NoPieces();
    NextPiece('l', L, "");
    NextPiece('|', Bar, "l");
    NextPiece('*', Marker(false), "|l");
    assert "*|l" == ['*'] + "|l" && "|l" == ['|'] + "l" && "l" == ['l'] + "";
  }

  /** A bar directly behind the marker: one argument fails on it, two arguments do not. */
  lemma BarBehindMarker()
    ensures var parts := Pieces("*|l");
            parts == [Marker(false), Bar, L] && CountOk(parts, 1) && !Clear(parts, 1) && CountOk(parts, 2) && Clear(parts, 2)
  {
    hide Pieces, Items, Pluses, Least;
    var parts := [Marker(false), Bar, L];
    SpelledBehind();
    OneMore(parts, 0);
    OneMore(parts, 1);
    OneMore(parts, 2);
    assert MarkerAt(parts) == 0 && HasMarker(parts);
    assert Window(parts, 1) == 0 && Window(parts, 2) == 1;
    assert Reached(parts, 1, 1) == 0 && Blocks(parts, 1, 1);
    assert !Blocks(parts, 2, 0) && !Blocks(parts, 2, 1) && !Blocks(parts, 2, 2);
  }

  /** The retired letter is counted, but no argument can be parsed with it. */
  lemma RetiredLetter()
    ensures var parts := Pieces("Z");
            parts == [Param('Z', "")] && CountOk(parts, 1) && !Clear(parts, 1)
  {
    hide Pieces, Items, Pluses, Least, MarkerFrom, ModsEnd;
    var parts := [Param('Z', "")];
    NoPieces();
    NextPiece('Z', parts[0], "");
    assert "Z" == ['Z'] + "";
    OneMore(parts, 0);
    NoMarkerIn(parts);
    assert Reached(parts, 1, 0) == 0 && Blocks(parts, 1, 0);
  }

  /** The slot of the marker holds the place and number of the arguments it took, and is empty if it was reached and took none. */
  lemma SlotMeans(parts: seq<Part>, n: nat, k: nat)
    requires Fits(parts, n) && k < n
    ensures ExpectedUses(parts, n)[k].Variable? <==>
              Slot(parts, n).Block? && Slot(parts, n).first <= k < Slot(parts, n).first + Slot(parts, n).count
    ensures Slot(parts, n).Block? ==> 0 < Slot(parts, n).count && Slot(parts, n).first + Slot(parts, n).count <= n
    ensures Slot(parts, n) == Untouched <==> !HasMarker(parts) || n <= Before(parts)
    ensures Slot(parts, n).Null? ==> Slot(parts, n).count == 0
  {
    hide Items, MarkerFrom, WellSpelled;
    BeforeAll(parts);
  }

  /** The one-character specifiers: which are counted, which are counted as an argument, and which can be parsed. */
  lemma OneCharacter(c: char)
    ensures CountAll(Counts(-1, 0, 0, false), [c]).Some? <==> c in "ldsbraoOzZChfAHpSPL|/!*+"
    ensures (CountAll(Counts(-1, 0, 0, false), [c]).Some? && CountAll(Counts(-1, 0, 0, false), [c]).value.max == 1)
            <==> c in "ldsbraoOzZChfAHpSPL+"
    ensures Parsable(c) <==> c in "ldsbraoOzChfAHpSPL"
    ensures IsMod(c) <==> c == '/' || c == '!'
  {
    hide CountAll;
    assert [c] == [c] + "";
    CountFirst(Counts(-1, 0, 0, false), c, "");
    CountNone(Counts(-1, 0, 0, false));
    CountNone(Counts(-1, 1, 1, true));
    CountNone(Counts(-1, 0, 0, true));
    CountNone(Counts(-1, 1, 0, false));
    CountNone(Counts(0, 0, 0, false));
  }

  // ---- what the expected uses amount to ----

  /** The parameters that received an argument, in order. */
  function Served(uses: seq<Use>): seq<Part> {
    if uses == [] then []
    else
      var last := uses[|uses| - 1];
      Served(uses[..|uses| - 1]) + (if last.Fixed? then [last.param] else [])
  }

  /** How many of the first k arguments fall into the window. */
  function Inside(parts: seq<Part>, n: int, k: nat): (c: nat)
    ensures c <= k
  {
    var before, w := Before(parts), Window(parts, n);
    if k <= before then 0 else if k - before <= w then k - before else w
  }

  lemma {:induction false} ServedPrefix(parts: seq<Part>, n: nat, k: nat)
    requires Fits(parts, n) && k <= n
    ensures k - Inside(parts, n, k) <= |All(parts)|
    ensures Served(ExpectedUses(parts, n)[..k]) == All(parts)[..k - Inside(parts, n, k)]
    decreases k
  {
    hide WellSpelled, Items, MarkerFrom;
    BeforeAll(parts);
    if k > 0 {
      ServedPrefix(parts, n, k - 1);
      var uses := ExpectedUses(parts, n)[..k];
      assert uses[..k - 1] == ExpectedUses(parts, n)[..k - 1];
    }
  }

  /**
   An accepted call serves each parameter at most once and in order: exactly the first n less the
   window of them, among them every parameter that may not be left out.
   */
  lemma ServedAre(parts: seq<Part>, n: nat)
    requires WellSpelled(parts) && CountOk(parts, n)
    ensures Fits(parts, n) && Window(parts, n) <= n
    ensures n - Window(parts, n) <= |All(parts)|
    ensures Served(ExpectedUses(parts, n)) == All(parts)[..n - Window(parts, n)]
    ensures n - Window(parts, n) >= Mandatory(parts, |parts|)
  {
    CountFits(parts, n);
    BeforeAll(parts);
    LeastWithin(parts, |parts|);
    ServedPrefix(parts, n, n);
    assert ExpectedUses(parts, n)[..n] == ExpectedUses(parts, n);
  }

  /** Argument k is used as argument k, and the window is one run behind the parameters before it. */
  lemma WindowIs(parts: seq<Part>, n: nat, k: nat)
    requires Fits(parts, n) && k < n
    ensures ExpectedUses(parts, n)[k].arg == k
    ensures ExpectedUses(parts, n)[k].Variable? <==> Before(parts) <= k < Before(parts) + Window(parts, n)
    ensures HasMarker(parts) ==>
              var after := |All(parts)| - Before(parts);
              Window(parts, n) == if n - Before(parts) - after > 0 then n - Before(parts) - after else 0
  {}
}
