/**
 Output names: the order in which outputs are placed (`compare`) and how a name written by the user
 selects an output (`matches`).
 */
module OutputNames {
  import opened Options

  datatype OutputName = OutputName(
    connector: string,
    make: Option<string>,
    model: Option<string>,
    serial: Option<string>)

  predicate MissingMms(n: OutputName) {
    n.make.None? && n.model.None? && n.serial.None?
  }

  // ----- Comparison -----

  datatype Ordering = Less | Equal | Greater

  function Reverse(o: Ordering): Ordering {
    match o
    case Less => Greater
    case Equal => Equal
    case Greater => Less
  }

  function Then(first: Ordering, second: Ordering): Ordering {
    if first.Equal? then second else first
  }

  function CompareStrings(a: string, b: string): Ordering {
    if a == [] then (if b == [] then Equal else Less)
    else if b == [] then Greater
    else if a[0] < b[0] then Less
    else if a[0] > b[0] then Greater
    else CompareStrings(a[1..], b[1..])
  }

  function CompareOptions(a: Option<string>, b: Option<string>): Ordering {
    match (a, b)
    case (None, None) => Equal
    case (None, Some(_)) => Less
    case (Some(_), None) => Greater
    case (Some(x), Some(y)) => CompareStrings(x, y)
  }

  function Compare(a: OutputName, b: OutputName): Ordering {
    if MissingMms(a) && MissingMms(b) then CompareStrings(a.connector, b.connector)
    else if MissingMms(a) then Greater
    else if MissingMms(b) then Less
    else
      Then(CompareOptions(a.make, b.make),
      Then(CompareOptions(a.model, b.model),
      Then(CompareOptions(a.serial, b.serial),
           CompareStrings(a.connector, b.connector))))
  }

  lemma {:induction false} StringsFlip(a: string, b: string)
    ensures CompareStrings(b, a) == Reverse(CompareStrings(a, b))
    ensures CompareStrings(a, b) == Equal <==> a == b
  {
    if a != [] && b != [] && a[0] == b[0] {
      StringsFlip(a[1..], b[1..]);
      assert a == [a[0]] + a[1..] && b == [b[0]] + b[1..];
    }
  }

  lemma {:induction false} StringsTransitive(a: string, b: string, c: string)
    requires CompareStrings(a, b) == Less && CompareStrings(b, c) == Less
    ensures CompareStrings(a, c) == Less
  {
    if a != [] && a[0] == b[0] == c[0] {
      StringsTransitive(a[1..], b[1..], c[1..]);
    }
  }

  lemma OptionsFlip(a: Option<string>, b: Option<string>)
    ensures CompareOptions(b, a) == Reverse(CompareOptions(a, b))
    ensures CompareOptions(a, b) == Equal <==> a == b
  {
    if a.Some? && b.Some? {
      StringsFlip(a.value, b.value);
    }
  }

  lemma OptionsTransitive(a: Option<string>, b: Option<string>, c: Option<string>)
    requires CompareOptions(a, b) == Less && CompareOptions(b, c) == Less
    ensures CompareOptions(a, c) == Less
  {
    if a.Some? && b.Some? && c.Some? {
      StringsTransitive(a.value, b.value, c.value);
    }
  }

  /** Exactly one of `a < b`, `a == b`, `b < a`; in particular outputs on different connectors are
      always ordered. */
  lemma CompareIsTotal(a: OutputName, b: OutputName)
    ensures Compare(b, a) == Reverse(Compare(a, b))
    ensures Compare(a, b) == Equal <==> a == b
    ensures a.connector != b.connector ==> Compare(a, b) != Equal
  {
    StringsFlip(a.connector, b.connector);
    OptionsFlip(a.make, b.make);
    OptionsFlip(a.model, b.model);
    OptionsFlip(a.serial, b.serial);
  }

  lemma CompareIsTransitive(a: OutputName, b: OutputName, c: OutputName)
    requires Compare(a, b) == Less && Compare(b, c) == Less
    ensures Compare(a, c) == Less
  {
    OptionsFlip(a.make, b.make);
    OptionsFlip(b.make, c.make);
    OptionsFlip(a.model, b.model);
    OptionsFlip(b.model, c.model);
    OptionsFlip(a.serial, b.serial);
    OptionsFlip(b.serial, c.serial);
    if CompareStrings(a.connector, b.connector) == Less == CompareStrings(b.connector, c.connector) {
      StringsTransitive(a.connector, b.connector, c.connector);
    }
    if CompareOptions(a.make, b.make) == Less == CompareOptions(b.make, c.make) {
      OptionsTransitive(a.make, b.make, c.make);
    }
    if CompareOptions(a.model, b.model) == Less == CompareOptions(b.model, c.model) {
      OptionsTransitive(a.model, b.model, c.model);
    }
    if CompareOptions(a.serial, b.serial) == Less == CompareOptions(b.serial, c.serial) {
      OptionsTransitive(a.serial, b.serial, c.serial);
    }
  }

  /** The first character that differs decides; a proper prefix comes first. */
  lemma {:induction false} StringsDecidedAt(a: string, b: string, k: nat)
    requires k <= |a| && k <= |b| && a[..k] == b[..k]
    requires k < |a| && k < |b| ==> a[k] != b[k]
    ensures CompareStrings(a, b) ==
            if k < |a| && k < |b| then (if a[k] < b[k] then Less else Greater)
            else if k < |b| then Less
            else if k < |a| then Greater
            else Equal
    decreases k
  {
    if k > 0 {
      assert a[0] == a[..k][0] == b[..k][0] == b[0];
      assert a[1..][..k - 1] == a[..k][1..] == b[..k][1..] == b[1..][..k - 1];
      StringsDecidedAt(a[1..], b[1..], k - 1);
    } else {
      assert a[..0] == b[..0] == [];
    }
    assert |a| == k ==> a[..k] == a;
    assert |b| == k ==> b[..k] == b;
    StringsFlip(a, b);
  }

  predicate SomeBefore(a: Option<string>, b: Option<string>) {
    b.Some? && (a.None? || CompareStrings(a.value, b.value) == Less)
  }

  /** The order: outputs with a make, model or serial first; among them make, then model, then serial
      decides, an unknown one coming first; then the connector. */
  lemma CompareDecidedBy(a: OutputName, b: OutputName)
    ensures MissingMms(a) && !MissingMms(b) ==> Compare(b, a) == Less
    ensures MissingMms(a) && MissingMms(b) ==>
              (Compare(a, b) == Less <==> CompareStrings(a.connector, b.connector) == Less)
    ensures !MissingMms(a) && !MissingMms(b) ==>
              (Compare(a, b) == Less <==>
                || SomeBefore(a.make, b.make)
                || (a.make == b.make && SomeBefore(a.model, b.model))
                || (a.make == b.make && a.model == b.model && SomeBefore(a.serial, b.serial))
                || (a.make == b.make && a.model == b.model && a.serial == b.serial &&
                    CompareStrings(a.connector, b.connector) == Less))
  {
    OptionsFlip(a.make, b.make);
    OptionsFlip(a.model, b.model);
    OptionsFlip(a.serial, b.serial);
  }

  // ----- Matching -----

  function LowerAscii(c: char): char {
    if 'A' <= c <= 'Z' then c - 'A' + 'a' else c
  }

  predicate EqIgnoreCase(a: string, b: string) {
    |a| == |b| && forall i | 0 <= i < |a| :: LowerAscii(a[i]) == LowerAscii(b[i])
  }

  function OrUnknown(s: Option<string>): string {
    if s.Some? then s.value else "Unknown"
  }

  function FormatMakeModelSerial(n: OutputName): string {
    OrUnknown(n.make) + " " + OrUnknown(n.model) + " " + OrUnknown(n.serial)
  }

  function FormatMakeModelSerialOrConnector(n: OutputName): string {
    if MissingMms(n) then n.connector else FormatMakeModelSerial(n)
  }

  /** Drops `word` (in any case) and a space from the front of `target`. */
  function StripWord(target: string, word: string): Option<string> {
    if |target| < |word| then None
    else if !EqIgnoreCase(target[..|word|], word) then None
    else
      var rest := target[|word|..];
      if rest == [] || rest[0] != ' ' then None else Some(rest[1..])
  }

  predicate Matches(n: OutputName, target: string) {
    EqIgnoreCase(target, n.connector) ||
    (!MissingMms(n) &&
     match StripWord(target, OrUnknown(n.make))
     case None => false
     case Some(rest) =>
       match StripWord(rest, OrUnknown(n.model))
       case None => false
       case Some(rest) => EqIgnoreCase(rest, OrUnknown(n.serial)))
  }

  /** Exactly the ASCII letters have two cases. */
  lemma CaseFolds(c: char, d: char)
    ensures LowerAscii(c) == LowerAscii(d) <==>
            || c == d
            || ('A' <= c <= 'Z' && d as int == c as int + 32)
            || ('A' <= d <= 'Z' && c as int == d as int + 32)
  {}

  lemma StripWordExact(target: string, word: string, tail: string)
    ensures EqIgnoreCase(target, word + " " + tail) <==>
            StripWord(target, word).Some? && EqIgnoreCase(StripWord(target, word).value, tail)
  {}

  /** Stripping the words one by one accepts exactly the connector and, when any of make, model and
      serial is known, the formatted "make model serial", in any letter case. */
  lemma MatchesExactly(n: OutputName, target: string)
    ensures Matches(n, target) <==>
            || EqIgnoreCase(target, n.connector)
            || (!MissingMms(n) && EqIgnoreCase(target, FormatMakeModelSerial(n)))
  {
    var make, model, serial := OrUnknown(n.make), OrUnknown(n.model), OrUnknown(n.serial);
    assert FormatMakeModelSerial(n) == make + " " + (model + " " + serial);
    StripWordExact(target, make, model + " " + serial);
    if StripWord(target, make).Some? {
      StripWordExact(StripWord(target, make).value, model, serial);
    }
  }

  lemma FormattedHasSpace(n: OutputName, target: string)
    requires ' ' !in target
    ensures !EqIgnoreCase(target, FormatMakeModelSerial(n))
  {
    var k := |OrUnknown(n.make)|;
    assert FormatMakeModelSerial(n)[k] == ' ';
    assert k < |target| ==> target[k] in target && LowerAscii(target[k]) != ' ';
  }

  /** What the compositor prints for an output selects that output again. */
  lemma FormattedNameMatches(n: OutputName)
    ensures Matches(n, FormatMakeModelSerialOrConnector(n))
  {
    MatchesExactly(n, FormatMakeModelSerialOrConnector(n));
  }
}
