/**
 Borders, focus rings, shadows, and the rules that override parts of them (`MergeWith` in
 niri-config). Window rules are first merged with each other and the result is then merged into the
 configured appearance; the theorems say when this equals applying the rules one after another.
 */
module Appearance {
  import opened Options
  import opened Sequences
  import History

  datatype Color = Color(r: real, g: real, b: real, a: real)
  datatype Gradient = Gradient(from: Color, to: Color, angle: int, relativeToView: bool)

  /** A colour and the gradient that, if present, is drawn instead of it. */
  datatype Paint = Paint(color: Color, gradient: Option<Gradient>)
  datatype PaintRule = PaintRule(color: Option<Color>, gradient: Option<Gradient>)

  datatype BorderStyle = BorderStyle(
    off: bool, width: real, active: Paint, inactive: Paint, urgent: Paint)

  datatype BorderRule = BorderRule(
    off: bool, on: bool, width: Option<real>,
    active: PaintRule, inactive: PaintRule, urgent: PaintRule)

  datatype ShadowOffset = ShadowOffset(x: real, y: real)

  datatype ShadowStyle = ShadowStyle(
    on: bool, offset: ShadowOffset, softness: real, spread: real,
    drawBehindWindow: bool, color: Color, inactiveColor: Option<Color>)

  datatype ShadowRule = ShadowRule(
    off: bool, on: bool, offset: Option<ShadowOffset>, softness: Option<real>, spread: Option<real>,
    drawBehindWindow: Option<bool>, color: Option<Color>, inactiveColor: Option<Color>)

  const NO_PAINT := PaintRule(None, None)
  const NO_BORDER_RULE := BorderRule(false, false, None, NO_PAINT, NO_PAINT, NO_PAINT)
  const NO_SHADOW_RULE := ShadowRule(false, false, None, None, None, None, None, None)

  // ----- Merging into an appearance -----

  function Or<T>(part: Option<T>, old': T): T {
    if part.Some? then part.value else old'
  }

  function OrOpt<T>(part: Option<T>, old': Option<T>): Option<T> {
    if part.Some? then part else old'
  }

  /** A new colour takes the old gradient away. */
  function MergePaint(p: Paint, part: PaintRule): Paint {
    var p := if part.color.Some? then Paint(part.color.value, None) else p;
    if part.gradient.Some? then p.(gradient := part.gradient) else p
  }

  function MergeBorder(b: BorderStyle, part: BorderRule): BorderStyle {
    BorderStyle(
      !part.on && (b.off || part.off),
      Or(part.width, b.width),
      MergePaint(b.active, part.active),
      MergePaint(b.inactive, part.inactive),
      MergePaint(b.urgent, part.urgent))
  }

  function MergeShadow(s: ShadowStyle, part: ShadowRule): ShadowStyle {
    ShadowStyle(
      !part.off && (s.on || part.on),
      Or(part.offset, s.offset),
      Or(part.softness, s.softness),
      Or(part.spread, s.spread),
      Or(part.drawBehindWindow, s.drawBehindWindow),
      Or(part.color, s.color),
      OrOpt(part.inactiveColor, s.inactiveColor))
  }

  // ----- Merging rules -----

  function MergePaintRule(p: PaintRule, part: PaintRule): PaintRule {
    var p := if part.color.Some? then PaintRule(part.color, None) else p;
    if part.gradient.Some? then p.(gradient := part.gradient) else p
  }

  /** `merge_on_off`: new flags replace the old ones, and `on` beats `off`. */
  function MergeBorderRule(r: BorderRule, part: BorderRule): BorderRule {
    BorderRule(
      if part.on then false else if part.off then true else r.off,
      if part.on then true else if part.off then false else r.on,
      OrOpt(part.width, r.width),
      MergePaintRule(r.active, part.active),
      MergePaintRule(r.inactive, part.inactive),
      MergePaintRule(r.urgent, part.urgent))
  }

  function MergeShadowRule(r: ShadowRule, part: ShadowRule): ShadowRule {
    ShadowRule(
      if part.on then false else if part.off then true else r.off,
      if part.on then true else if part.off then false else r.on,
      OrOpt(part.offset, r.offset),
      OrOpt(part.softness, r.softness),
      OrOpt(part.spread, r.spread),
      OrOpt(part.drawBehindWindow, r.drawBehindWindow),
      OrOpt(part.color, r.color),
      OrOpt(part.inactiveColor, r.inactiveColor))
  }

  // ----- Lists of rules -----

  function FoldBorderRules(rules: seq<BorderRule>): BorderRule {
    if rules == [] then NO_BORDER_RULE
    else MergeBorderRule(FoldBorderRules(rules[..|rules| - 1]), rules[|rules| - 1])
  }

  function ApplyBorderRules(b: BorderStyle, rules: seq<BorderRule>): BorderStyle {
    if rules == [] then b
    else MergeBorder(ApplyBorderRules(b, rules[..|rules| - 1]), rules[|rules| - 1])
  }

  function FoldShadowRules(rules: seq<ShadowRule>): ShadowRule {
    if rules == [] then NO_SHADOW_RULE
    else MergeShadowRule(FoldShadowRules(rules[..|rules| - 1]), rules[|rules| - 1])
  }

  function ApplyShadowRules(s: ShadowStyle, rules: seq<ShadowRule>): ShadowStyle {
    if rules == [] then s
    else MergeShadow(ApplyShadowRules(s, rules[..|rules| - 1]), rules[|rules| - 1])
  }

  /** Rules act on borders: merging two rules and applying the result is applying both. */
  lemma BorderAction(b: BorderStyle, r: BorderRule, q: BorderRule)
    ensures MergeBorder(b, MergeBorderRule(r, q)) == MergeBorder(MergeBorder(b, r), q)
    ensures MergeBorder(b, NO_BORDER_RULE) == b
  {}

  lemma BorderRulesAssociate(r: BorderRule, q: BorderRule, p: BorderRule)
    ensures MergeBorderRule(MergeBorderRule(r, q), p) == MergeBorderRule(r, MergeBorderRule(q, p))
    ensures MergeBorderRule(r, NO_BORDER_RULE) == r
  {}

  /** Folding any list of border rules into one and applying it equals applying them in order. */
  lemma {:induction false} FoldedBorderRules(b: BorderStyle, rules: seq<BorderRule>)
    ensures MergeBorder(b, FoldBorderRules(rules)) == ApplyBorderRules(b, rules)
  {
    if rules == [] {
      BorderAction(b, NO_BORDER_RULE, NO_BORDER_RULE);
    } else {
      var n := |rules| - 1;
      FoldedBorderRules(b, rules[..n]);
      BorderAction(b, FoldBorderRules(rules[..n]), rules[n]);
    }
  }

  ghost predicate Touches(p: PaintRule) {
    p.color.Some? || p.gradient.Some?
  }

  /** Rule `i` has the last word on the colour, or on the gradient: the last rule that touches the
      paint at all decides the gradient, so that a plain colour removes earlier gradients. */
  ghost predicate PaintDecided(result: Paint, rules: seq<PaintRule>, i: nat)
    requires i < |rules|
  {
    && (rules[i].color.Some? && (forall j | i < j < |rules| :: rules[j].color.None?) ==>
          result.color == rules[i].color.value)
    && (Touches(rules[i]) && (forall j | i < j < |rules| :: !Touches(rules[j])) ==>
          result.gradient == rules[i].gradient)
  }

  function ActiveParts(rules: seq<BorderRule>): seq<PaintRule> {
    seq(|rules|, k requires 0 <= k < |rules| => rules[k].active)
  }

  function InactiveParts(rules: seq<BorderRule>): seq<PaintRule> {
    seq(|rules|, k requires 0 <= k < |rules| => rules[k].inactive)
  }

  function UrgentParts(rules: seq<BorderRule>): seq<PaintRule> {
    seq(|rules|, k requires 0 <= k < |rules| => rules[k].urgent)
  }

  /** What a list of rules does, said without folding: the last rule with a flag decides whether the
      border is off, with `on` winning; the last rule with a width decides the width; and each of
      the three paints is decided as in `PaintDecided`. What no rule sets: see `UnsetStays`. */
  lemma {:induction false} LastRuleDecides(b: BorderStyle, rules: seq<BorderRule>, i: nat)
    requires i < |rules|
    ensures
      var r, last := ApplyBorderRules(b, rules), rules[i];
      && ((last.on || last.off) && (forall j | i < j < |rules| :: !rules[j].on && !rules[j].off) ==>
            r.off == !last.on)
      && (last.width.Some? && (forall j | i < j < |rules| :: rules[j].width.None?) ==>
            r.width == last.width.value)
    ensures PaintDecided(ApplyBorderRules(b, rules).active, ActiveParts(rules), i)
    ensures PaintDecided(ApplyBorderRules(b, rules).inactive, InactiveParts(rules), i)
    ensures PaintDecided(ApplyBorderRules(b, rules).urgent, UrgentParts(rules), i)
  {
    var n := |rules| - 1;
    if i < n {
      LastRuleDecides(b, rules[..n], i);
      assert ActiveParts(rules)[..n] == ActiveParts(rules[..n]);
      assert InactiveParts(rules)[..n] == InactiveParts(rules[..n]);
      assert UrgentParts(rules)[..n] == UrgentParts(rules[..n]);
      var before := ApplyBorderRules(b, rules[..n]);
      PaintStep(before.active, ActiveParts(rules), i);
      PaintStep(before.inactive, InactiveParts(rules), i);
      PaintStep(before.urgent, UrgentParts(rules), i);
    }
  }

  lemma PaintStep(p: Paint, rules: seq<PaintRule>, i: nat)
    requires i < |rules| - 1 && PaintDecided(p, rules[..|rules| - 1], i)
    ensures PaintDecided(MergePaint(p, rules[|rules| - 1]), rules, i)
  {}

  ghost predicate PaintStays(base: Paint, result: Paint, rules: seq<PaintRule>) {
    && ((forall p | p in rules :: p.color.None?) ==> result.color == base.color)
    && ((forall p | p in rules :: !Touches(p)) ==> result.gradient == base.gradient)
  }

  /** What no rule sets is as it was. */
  lemma UnsetStays(b: BorderStyle, rules: seq<BorderRule>)
    ensures
      var r := ApplyBorderRules(b, rules);
      && ((forall rule | rule in rules :: !rule.on && !rule.off) ==> r.off == b.off)
      && ((forall rule | rule in rules :: rule.width.None?) ==> r.width == b.width)
      && PaintStays(b.active, r.active, ActiveParts(rules))
      && PaintStays(b.inactive, r.inactive, InactiveParts(rules))
      && PaintStays(b.urgent, r.urgent, UrgentParts(rules))
  {
    UnsetOffStays(b, rules);
    UnsetWidthStays(b, rules);
    UnsetActiveStays(b, rules);
    UnsetInactiveStays(b, rules);
    UnsetUrgentStays(b, rules);
  }

  lemma {:induction false} UnsetOffStays(b: BorderStyle, rules: seq<BorderRule>)
    ensures (forall rule | rule in rules :: !rule.on && !rule.off) ==>
              ApplyBorderRules(b, rules).off == b.off
  {
    if rules != [] {
      UnsetOffStays(b, rules[..|rules| - 1]);
    }
  }

  lemma {:induction false} UnsetWidthStays(b: BorderStyle, rules: seq<BorderRule>)
    ensures (forall rule | rule in rules :: rule.width.None?) ==>
              ApplyBorderRules(b, rules).width == b.width
  {
    if rules != [] {
      UnsetWidthStays(b, rules[..|rules| - 1]);
    }
  }

  lemma {:induction false} UnsetActiveStays(b: BorderStyle, rules: seq<BorderRule>)
    ensures PaintStays(b.active, ApplyBorderRules(b, rules).active, ActiveParts(rules))
  {
    if rules != [] {
      var n := |rules| - 1;
      UnsetActiveStays(b, rules[..n]);
      assert ActiveParts(rules) == ActiveParts(rules[..n]) + [rules[n].active];
      StaysStep(b.active, ApplyBorderRules(b, rules[..n]).active, ActiveParts(rules[..n]),
                rules[n].active);
    }
  }

  lemma {:induction false} UnsetInactiveStays(b: BorderStyle, rules: seq<BorderRule>)
    ensures PaintStays(b.inactive, ApplyBorderRules(b, rules).inactive, InactiveParts(rules))
  {
    if rules != [] {
      var n := |rules| - 1;
      UnsetInactiveStays(b, rules[..n]);
      assert InactiveParts(rules) == InactiveParts(rules[..n]) + [rules[n].inactive];
      StaysStep(b.inactive, ApplyBorderRules(b, rules[..n]).inactive, InactiveParts(rules[..n]),
                rules[n].inactive);
    }
  }

  lemma {:induction false} UnsetUrgentStays(b: BorderStyle, rules: seq<BorderRule>)
    ensures PaintStays(b.urgent, ApplyBorderRules(b, rules).urgent, UrgentParts(rules))
  {
    if rules != [] {
      var n := |rules| - 1;
      UnsetUrgentStays(b, rules[..n]);
      assert UrgentParts(rules) == UrgentParts(rules[..n]) + [rules[n].urgent];
      StaysStep(b.urgent, ApplyBorderRules(b, rules[..n]).urgent, UrgentParts(rules[..n]),
                rules[n].urgent);
    }
  }

  lemma StaysStep(base: Paint, p: Paint, rules: seq<PaintRule>, last: PaintRule)
    requires PaintStays(base, p, rules)
    ensures PaintStays(base, MergePaint(p, last), rules + [last])
  {
    assert forall q | q in rules :: q in rules + [last];
    assert last in rules + [last];
  }

  // ----- Shadows -----

  /** For shadows the law fails exactly when the later rule says both `on` and `off`: merging rules
      lets `on` win, merging into a shadow lets `off` win. */
  lemma ShadowActionExactly(s: ShadowStyle, r: ShadowRule, q: ShadowRule)
    ensures MergeShadow(s, MergeShadowRule(r, q)) == MergeShadow(MergeShadow(s, r), q)
            <==> !(q.on && q.off)
  {}

  /** What one rule says about the fields of a shadow. `off` beats `on`. */
  function ShadowOnSaid(r: ShadowRule): Option<bool> {
    if r.off then Some(false) else if r.on then Some(true) else None
  }

  function OffsetSaid(r: ShadowRule): Option<ShadowOffset> { r.offset }
  function SoftnessSaid(r: ShadowRule): Option<real> { r.softness }
  function SpreadSaid(r: ShadowRule): Option<real> { r.spread }
  function DrawBehindSaid(r: ShadowRule): Option<bool> { r.drawBehindWindow }
  function ShadowColorSaid(r: ShadowRule): Option<Color> { r.color }
  function InactiveColorSaid(r: ShadowRule): Option<Option<Color>> {
    if r.inactiveColor.Some? then Some(r.inactiveColor) else None
  }

  ghost predicate AsLastSaid<V>(start: V, said: ShadowRule -> Option<V>, rules: seq<ShadowRule>, v: V) {
    History.Follows(start, Map(said, rules), v)
  }

  lemma AsLastSaidGrows<V>(start: V, said: ShadowRule -> Option<V>, rules: seq<ShadowRule>, v: V)
    requires rules != []
    ensures
      var n := |rules| - 1;
      AsLastSaid(start, said, rules, v) <==>
        if said(rules[n]).Some? then said(rules[n]).value == v
        else AsLastSaid(start, said, rules[..n], v)
  {
    var n := |rules| - 1;
    assert Map(said, rules) == Map(said, rules[..n]) + [said(rules[n])];
    History.FollowsGrows(start, Map(said, rules[..n]), said(rules[n]), v);
  }

  /** Each field of a shadow is what the last rule that sets it says, or what it was. */
  lemma {:induction false} ShadowRulesDecide(s: ShadowStyle, rules: seq<ShadowRule>)
    ensures
      var r := ApplyShadowRules(s, rules);
      && AsLastSaid(s.on, ShadowOnSaid, rules, r.on)
      && AsLastSaid(s.offset, OffsetSaid, rules, r.offset)
      && AsLastSaid(s.softness, SoftnessSaid, rules, r.softness)
      && AsLastSaid(s.spread, SpreadSaid, rules, r.spread)
      && AsLastSaid(s.drawBehindWindow, DrawBehindSaid, rules, r.drawBehindWindow)
      && AsLastSaid(s.color, ShadowColorSaid, rules, r.color)
      && AsLastSaid(s.inactiveColor, InactiveColorSaid, rules, r.inactiveColor)
  {
    if rules != [] {
      ShadowRulesDecide(s, rules[..|rules| - 1]);
      var r := ApplyShadowRules(s, rules);
      AsLastSaidGrows(s.on, ShadowOnSaid, rules, r.on);
      AsLastSaidGrows(s.offset, OffsetSaid, rules, r.offset);
      AsLastSaidGrows(s.softness, SoftnessSaid, rules, r.softness);
      AsLastSaidGrows(s.spread, SpreadSaid, rules, r.spread);
      AsLastSaidGrows(s.drawBehindWindow, DrawBehindSaid, rules, r.drawBehindWindow);
      AsLastSaidGrows(s.color, ShadowColorSaid, rules, r.color);
      AsLastSaidGrows(s.inactiveColor, InactiveColorSaid, rules, r.inactiveColor);
    }
  }

  /** The last rule that sets a flag sets both. */
  ghost predicate EndsAmbiguous(rules: seq<ShadowRule>) {
    rules != [] &&
    var last := rules[|rules| - 1];
    if last.on || last.off then last.on && last.off else EndsAmbiguous(rules[..|rules| - 1])
  }

  lemma {:induction false} ShadowFlags(s: ShadowStyle, rules: seq<ShadowRule>)
    ensures !(FoldShadowRules(rules).on && FoldShadowRules(rules).off)
    ensures MergeShadow(s, FoldShadowRules(rules)).(on := false) ==
            ApplyShadowRules(s, rules).(on := false)
    ensures EndsAmbiguous(rules) ==>
              FoldShadowRules(rules).on && !FoldShadowRules(rules).off &&
              !ApplyShadowRules(s, rules).on
    ensures !EndsAmbiguous(rules) ==>
              MergeShadow(s, FoldShadowRules(rules)).on == ApplyShadowRules(s, rules).on
  {
    if rules != [] {
      ShadowFlags(s, rules[..|rules| - 1]);
    }
  }

  /** Folding a list of shadow rules and applying the result equals applying them in order, if and
      only if the last rule with a flag does not set both. */
  lemma FoldedShadowRules(s: ShadowStyle, rules: seq<ShadowRule>)
    ensures MergeShadow(s, FoldShadowRules(rules)) == ApplyShadowRules(s, rules)
            <==> !EndsAmbiguous(rules)
  {
    ShadowFlags(s, rules);
    var a, b := MergeShadow(s, FoldShadowRules(rules)), ApplyShadowRules(s, rules);
    assert a == a.(on := false).(on := a.on) && b == b.(on := false).(on := b.on);
  }

  /** One rule that says both is enough to break it. */
  lemma AmbiguousShadowRule(s: ShadowStyle)
    ensures var both := NO_SHADOW_RULE.(on := true, off := true);
      MergeShadow(s, FoldShadowRules([both])).on && !ApplyShadowRules(s, [both]).on
  {}

  // ----- The objects that are updated in place -----

  class Border {
    var off: bool
    var width: real
    var activeColor: Color
    var inactiveColor: Color
    var urgentColor: Color
    var activeGradient: Option<Gradient>
    var inactiveGradient: Option<Gradient>
    var urgentGradient: Option<Gradient>

    ghost function View(): BorderStyle
      reads this
    {
      BorderStyle(off, width, Paint(activeColor, activeGradient),
                  Paint(inactiveColor, inactiveGradient), Paint(urgentColor, urgentGradient))
    }

    constructor (style: BorderStyle)
      ensures View() == style
    {
      off, width := style.off, style.width;
      activeColor, activeGradient := style.active.color, style.active.gradient;
      inactiveColor, inactiveGradient := style.inactive.color, style.inactive.gradient;
      urgentColor, urgentGradient := style.urgent.color, style.urgent.gradient;
    }

    method MergeWith(part: BorderRule)
      modifies this
      ensures View() == MergeBorder(old(View()), part)
    {
      off := off || part.off;
      if part.on {
        off := false;
      }
      if part.width.Some? {
        width := part.width.value;
      }
      MergeActive(part.active);
      MergeInactive(part.inactive);
      MergeUrgent(part.urgent);
    }

    method MergeActive(part: PaintRule)
      modifies `activeColor, `activeGradient
      ensures View() == old(View()).(active := MergePaint(old(View()).active, part))
    {
      if part.color.Some? {
        activeColor := part.color.value;
        activeGradient := None;
      }
      if part.gradient.Some? {
        activeGradient := part.gradient;
      }
    }

    method MergeInactive(part: PaintRule)
      modifies `inactiveColor, `inactiveGradient
      ensures View() == old(View()).(inactive := MergePaint(old(View()).inactive, part))
    {
      if part.color.Some? {
        inactiveColor := part.color.value;
        inactiveGradient := None;
      }
      if part.gradient.Some? {
        inactiveGradient := part.gradient;
      }
    }

    method MergeUrgent(part: PaintRule)
      modifies `urgentColor, `urgentGradient
      ensures View() == old(View()).(urgent := MergePaint(old(View()).urgent, part))
    {
      if part.color.Some? {
        urgentColor := part.color.value;
        urgentGradient := None;
      }
      if part.gradient.Some? {
        urgentGradient := part.gradient;
      }
    }

    /** What the layout does for one window: resolve the matching rules, then merge them in. */
    method ApplyWindowRules(rules: seq<BorderRule>)
      modifies this
      ensures View() == ApplyBorderRules(old(View()), rules)
    {
      var resolved := NO_BORDER_RULE;
      for i := 0 to |rules|
        invariant resolved == FoldBorderRules(rules[..i])
      {
        assert rules[..i + 1][..i] == rules[..i];
        resolved := MergeBorderRule(resolved, rules[i]);
      }
      assert rules[..|rules|] == rules;
      FoldedBorderRules(View(), rules);
      MergeWith(resolved);
    }
  }

  /** A focus ring is merged by way of a border. */
  class FocusRing {
    var style: BorderStyle

    constructor (style: BorderStyle)
      ensures this.style == style
    {
      this.style := style;
    }

    method MergeWith(part: BorderRule)
      modifies this
      ensures style == MergeBorder(old(style), part)
    {
      var x := new Border(style);
      x.MergeWith(part);
      style := BorderStyle(x.off, x.width, Paint(x.activeColor, x.activeGradient),
                           Paint(x.inactiveColor, x.inactiveGradient),
                           Paint(x.urgentColor, x.urgentGradient));
    }
  }

  class Shadow {
    var style: ShadowStyle

    constructor (style: ShadowStyle)
      ensures this.style == style
    {
      this.style := style;
    }

    method MergeWith(part: ShadowRule)
      modifies this
      ensures style == MergeShadow(old(style), part)
    {
      var on := style.on || part.on;
      if part.off {
        on := false;
      }
      style := style.(on := on);
      MergeShape(part);
      MergeColors(part);
    }

    method MergeShape(part: ShadowRule)
      modifies this
      ensures style == old(style).(
                softness := Or(part.softness, old(style).softness),
                spread := Or(part.spread, old(style).spread),
                offset := Or(part.offset, old(style).offset))
    {
      if part.softness.Some? {
        style := style.(softness := part.softness.value);
      }
      if part.spread.Some? {
        style := style.(spread := part.spread.value);
      }
      if part.offset.Some? {
        style := style.(offset := part.offset.value);
      }
    }

    method MergeColors(part: ShadowRule)
      modifies this
      ensures style == old(style).(
                drawBehindWindow := Or(part.drawBehindWindow, old(style).drawBehindWindow),
                color := Or(part.color, old(style).color),
                inactiveColor := OrOpt(part.inactiveColor, old(style).inactiveColor))
    {
      if part.drawBehindWindow.Some? {
        style := style.(drawBehindWindow := part.drawBehindWindow.value);
      }
      if part.color.Some? {
        style := style.(color := part.color.value);
      }
      if part.inactiveColor.Some? {
        style := style.(inactiveColor := part.inactiveColor);
      }
    }
  }
}
