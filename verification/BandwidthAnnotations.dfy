/** Bandwidth annotations on pods: reading, writing, defaulting and normalizing
    them, and that the scheduler and the operator read the same numbers. */
module BandwidthAnnotations {
  import opened Options

  datatype Rate = Rate(ul: int, dl: int)

  type Annotations = map<string, string>

  const OVN_EGRESS := "ovn.kubernetes.io/egress_rate"
  const OVN_INGRESS := "ovn.kubernetes.io/ingress_rate"
  const CALICO_EGRESS := "kubernetes.io/egress-bandwidth"
  const CALICO_INGRESS := "kubernetes.io/ingress-bandwidth"

  const MAX_INT64 := 0x7fff_ffff_ffff_ffff
  const MEGA := 1_000_000

  /** Annotation keys and defaults; `quantity` stands for the Kubernetes quantity parser. */
  datatype Config = Config(
    egress: string,
    ingress: string,
    defaultEgress: int,
    defaultIngress: int,
    quantity: string -> Option<int>)

  // ---- Decimal numbers ----

  function Digit(d: nat): char
    requires d < 10
  {
    "0123456789"[d]
  }

  function DigitValue(c: char): Option<nat>
  {
    if '0' <= c <= '9' then Some(c as int - '0' as int) else None
  }

  /** strconv.FormatInt of a non-negative number. */
  function Decimal(n: nat): string
  {
    if n < 10 then [Digit(n)] else Decimal(n / 10) + [Digit(n % 10)]
  }

  function Natural(s: string): Option<nat>
  {
    if s == "" then None
    else
      var last := DigitValue(s[|s| - 1]);
      if last.None? then None
      else if |s| == 1 then last
      else
        var high := Natural(s[..|s| - 1]);
        if high.None? then None else Some(10 * high.value + last.value)
  }

  /** strconv.Atoi: an optional sign, digits, and a value that fits 64 bits. */
  function Atoi(s: string): Option<int>
  {
    if s == "" then None
    else
      var negative := s[0] == '-';
      var digits := if s[0] == '-' || s[0] == '+' then s[1..] else s;
      var n := Natural(digits);
      if n.None? then None
      else
        var v: int := if negative then -(n.value as int) else n.value;
        if -MAX_INT64 - 1 <= v <= MAX_INT64 then Some(v) else None
  }

  lemma DigitRoundTrip(d: nat)
    requires d < 10
    ensures DigitValue(Digit(d)) == Some(d)
  {
    assert d == 0 || d == 1 || d == 2 || d == 3 || d == 4 || d == 5 || d == 6 || d == 7 || d == 8 || d == 9;
  }

  lemma {:induction false} NaturalRoundTrip(n: nat)
    ensures Natural(Decimal(n)) == Some(n)
    ensures Decimal(n) != "" && DigitValue(Decimal(n)[0]).Some?
  {
    if n < 10 {
      DigitRoundTrip(n);
    } else {
      NaturalRoundTrip(n / 10);
      DigitRoundTrip(n % 10);
      assert Decimal(n)[..|Decimal(n)| - 1] == Decimal(n / 10);
      assert Decimal(n)[0] == Decimal(n / 10)[0];
    }
  }

  lemma AtoiRoundTrip(n: nat)
    requires n <= MAX_INT64
    ensures Atoi(Decimal(n)) == Some(n)
  {
    NaturalRoundTrip(n);
  }

  lemma AtoiRefusesSuffix(s: string)
    ensures Atoi(s + "M") == None
  {
    var t := s + "M";
    assert t[|t| - 1] == 'M';
    assert DigitValue('M') == None;
    if t[0] == '-' || t[0] == '+' {
      assert t[1..] == "" || t[1..][|t[1..]| - 1] == 'M';
    }
  }

  // ---- Values ----

  /** Go's integer division truncates toward zero. */
  function Quotient(a: int, b: int): int
    requires b > 0
  {
    if a >= 0 then a / b else -((-a) / b)
  }

  function Parse(cfg: Config, v: string): int
  {
    match Atoi(v)
    case Some(n) => n
    case None =>
      match cfg.quantity(v)
      case Some(q) => Quotient(q, MEGA)
      case None => 0
  }

  predicate IsPlainKey(key: string) { key == OVN_EGRESS || key == OVN_INGRESS }

  function Format(mbps: nat, key: string): string
  {
    if IsPlainKey(key) then Decimal(mbps) else Decimal(mbps) + "M"
  }

  /** Rates that the annotation style of this key can express. */
  predicate Expressible(mbps: int, key: string)
  {
    0 < mbps && if IsPlainKey(key) then mbps <= MAX_INT64 else mbps * MEGA <= MAX_INT64
  }

  /** The quantity parser reads "20M" as twenty million. */
  ghost predicate ReadsMega(cfg: Config)
  {
    forall n: nat :: 0 < n && n * MEGA <= MAX_INT64 ==> cfg.quantity(Decimal(n) + "M") == Some(n * MEGA)
  }

  /** Parsing undoes formatting, in both styles. */
  lemma ParseFormat(cfg: Config, mbps: int, key: string)
    requires ReadsMega(cfg) && Expressible(mbps, key)
    ensures Parse(cfg, Format(mbps, key)) == mbps
    ensures Format(mbps, key) != ""
  {
    if IsPlainKey(key) {
      AtoiRoundTrip(mbps);
      NaturalRoundTrip(mbps);
    } else {
      AtoiRefusesSuffix(Decimal(mbps));
      assert cfg.quantity(Decimal(mbps) + "M") == Some(mbps * MEGA);
    }
  }

  /** The OVN keys take plain numbers, all others an M behind them. */
  lemma FormatStyles(cfg: Config, n: nat, key: string)
    ensures Format(20, "ovn.kubernetes.io/egress_rate") == "20" == Format(20, "ovn.kubernetes.io/ingress_rate")
    ensures key != "ovn.kubernetes.io/egress_rate" && key != "ovn.kubernetes.io/ingress_rate" ==>
              Format(20, key) == "20M" && Format(n, key) == Decimal(n) + "M"
    ensures Decimal(0) == "0" && Decimal(105) == "105"
  {
    assert Decimal(2) == "2" && Decimal(20) == Decimal(2) + "0" == "20";
    assert Decimal(1) == "1" && Decimal(10) == Decimal(1) + "0" == "10" && Decimal(105) == Decimal(10) + "5" == "105";
  }

  /** Signs are read, anything else is left to the quantity parser, and rates are rounded towards zero. */
  lemma ParseStyles(cfg: Config, v: string)
    ensures Parse(cfg, "7") == 7 && Parse(cfg, "-7") == -7 && Parse(cfg, "+7") == 7
    ensures cfg.quantity(v + "M") == Some(1_999_999) ==> Parse(cfg, v + "M") == 1
    ensures cfg.quantity(v + "M") == Some(-1_999_999) ==> Parse(cfg, v + "M") == -1
    ensures cfg.quantity(v + "M") == None ==> Parse(cfg, v + "M") == 0
  {
    AtoiRefusesSuffix(v);
    assert "7"[0] == '7' && Natural("7") == Some(7);
    assert "-7"[1..] == "7" && "+7"[1..] == "7";
  }

  function ValueAt(cfg: Config, a: Annotations, key: string): int
  {
    if key in a && a[key] != "" then Parse(cfg, a[key]) else 0
  }

  predicate HasRate(cfg: Config, a: Annotations) { cfg.egress in a || cfg.ingress in a }

  /** GetBandwidthFromAnnotation, the operator's reading. */
  function RateOf(cfg: Config, a: Annotations): Rate
  {
    Rate(ValueAt(cfg, a, cfg.egress), ValueAt(cfg, a, cfg.ingress))
  }

  // ---- ExtractPodBandwidthRequirement ----

  datatype Extracted = Extracted(rate: Rate, annotations: Annotations)

  function WithDefault(a: Annotations, key: string, value: int): Annotations
  {
    if value > 0 then a[key := Format(value, key)] else a
  }

  function Extract(cfg: Config, a: Annotations): Extracted
  {
    if !HasRate(cfg, a) then
      Extracted(Rate(cfg.defaultEgress, cfg.defaultIngress),
                WithDefault(WithDefault(a, cfg.egress, cfg.defaultEgress), cfg.ingress, cfg.defaultIngress))
    else
      var found := RateOf(cfg, a);
      var fillUl := found.ul == 0 && cfg.defaultEgress > 0;
      var fillDl := found.dl == 0 && cfg.defaultIngress > 0;
      var a1 := if fillUl then a[cfg.egress := Format(cfg.defaultEgress, cfg.egress)] else a;
      var a2 := if fillDl then a1[cfg.ingress := Format(cfg.defaultIngress, cfg.ingress)] else a1;
      var rate := Rate(if fillUl then cfg.defaultEgress else found.ul, if fillDl then cfg.defaultIngress else found.dl);
      Extracted(rate, a2)
  }

  class AnnotatedPod {
    var annotations: Annotations

    method ExtractPodBandwidthRequirement(cfg: Config) returns (rate: Rate)
      modifies this
      ensures Extracted(rate, annotations) == Extract(cfg, old(annotations))
    {
      var ul, dl := 0, 0;
      var found := cfg.egress in annotations || cfg.ingress in annotations;
      if found {
        if cfg.egress in annotations && annotations[cfg.egress] != "" { ul := Parse(cfg, annotations[cfg.egress]); }
        if cfg.ingress in annotations && annotations[cfg.ingress] != "" { dl := Parse(cfg, annotations[cfg.ingress]); }
        if ul == 0 && cfg.defaultEgress > 0 {
          ul := cfg.defaultEgress;
          annotations := annotations[cfg.egress := Format(ul, cfg.egress)];
        }
        if dl == 0 && cfg.defaultIngress > 0 {
          dl := cfg.defaultIngress;
          annotations := annotations[cfg.ingress := Format(dl, cfg.ingress)];
        }
      } else {
        ul, dl := cfg.defaultEgress, cfg.defaultIngress;
        if ul > 0 { annotations := annotations[cfg.egress := Format(ul, cfg.egress)]; }
        if dl > 0 { annotations := annotations[cfg.ingress := Format(dl, cfg.ingress)]; }
      }
      rate := Rate(ul, dl);
    }

    /** NormalizePodBandwidthAnnotations, without the write to the API server. */
    method NormalizePodBandwidthAnnotations(cfg: Config) returns (updated: bool)
      modifies this
      ensures annotations == Normalize(cfg, old(annotations))
      ensures !updated ==> annotations == old(annotations)
      ensures DirectionsKept(cfg) ==> (updated <==> annotations != old(annotations))
    {
      updated := false;
      var ul, dl := 0, 0;
      var known := KNOWN;
      for i := 0 to |known|
        invariant Extracted(Rate(ul, dl), annotations) == Scan(cfg, known[..i], old(annotations))
        invariant !updated ==> annotations == old(annotations)
        invariant DirectionsKept(cfg) ==> Spared(cfg, old(annotations), annotations, updated)
      {
        assert known[..i + 1][..i] == known[..i];
        assert known[i] == (OVN_EGRESS, OVN_INGRESS) || known[i] == (CALICO_EGRESS, CALICO_INGRESS);
        ul, dl, updated := ScanStyle(cfg, known[i], ul, dl, updated, old(annotations));
      }
      assert known[..|known|] == known;
      var written := WriteExpected(cfg.egress, ul);
      updated := updated || written;
      written := WriteExpected(cfg.ingress, dl);
      updated := updated || written;
    }

    /** Look at both keys of one known style. */
    method ScanStyle(cfg: Config, style: (string, string), ul0: int, dl0: int, updated0: bool, ghost first: Annotations)
        returns (ul: int, dl: int, updated: bool)
      modifies this
      ensures var (u, a) := ScanKey(cfg, old(annotations), style.0, cfg.egress, ul0);
              (ul, (dl, annotations)) == (u, ScanKey(cfg, a, style.1, cfg.ingress, dl0))
      ensures updated0 ==> updated
      ensures !updated ==> annotations == old(annotations)
      ensures style.0 != cfg.ingress && style.1 != cfg.egress && Spared(cfg, first, old(annotations), updated0) ==>
                Spared(cfg, first, annotations, updated)
    {
      var removed;
      ul, removed := ScanOne(cfg, style.0, cfg.egress, ul0);
      updated := updated0 || removed;
      dl, removed := ScanOne(cfg, style.1, cfg.ingress, dl0);
      updated := updated || removed;
    }

    /** Look at one known key: take its positive value, and drop it if it is not the configured key. */
    method ScanOne(cfg: Config, key: string, standard: string, sofar: int) returns (value: int, removed: bool)
      modifies this
      ensures (value, annotations) == ScanKey(cfg, old(annotations), key, standard, sofar)
      ensures !removed ==> annotations == old(annotations)
      ensures removed ==> key != standard && key in old(annotations) && annotations == old(annotations) - {key}
    {
      value, removed := sofar, false;
      if key in annotations && annotations[key] != "" {
        var val := Parse(cfg, annotations[key]);
        if val > 0 {
          value := val;
          if key != standard {
            annotations := annotations - {key};
            removed := true;
          }
        }
      }
    }

    method WriteExpected(key: string, value: int) returns (written: bool)
      modifies this
      ensures annotations == WithDefault(old(annotations), key, value)
      ensures written <==> annotations != old(annotations)
    {
      written := false;
      if value > 0 {
        var expected := Format(value, key);
        if key !in annotations || annotations[key] != expected {
          annotations := annotations[key := expected];
          written := true;
        }
      }
    }
  }

  /** So far the configured keys are as they were and, if anything changed, another key is gone. */
  ghost predicate Spared(cfg: Config, before: Annotations, now: Annotations, changed: bool)
  {
    && (cfg.egress in before <==> cfg.egress in now) && (cfg.egress in before ==> before[cfg.egress] == now[cfg.egress])
    && (cfg.ingress in before <==> cfg.ingress in now) &&
      (cfg.ingress in before ==> before[cfg.ingress] == now[cfg.ingress])
    && now.Keys <= before.Keys
    && (changed ==> exists k :: k in before && k !in now && k != cfg.egress && k != cfg.ingress)
  }

  /** Different keys, and defaults that are absent or expressible. */
  ghost predicate Sound(cfg: Config)
  {
    && ReadsMega(cfg) && cfg.egress != cfg.ingress
    && (cfg.defaultEgress == 0 || Expressible(cfg.defaultEgress, cfg.egress))
    && (cfg.defaultIngress == 0 || Expressible(cfg.defaultIngress, cfg.ingress))
  }

  /** What is extracted: without any annotation both defaults; otherwise what each annotation
      says, and a positive default where it says nothing or zero. */
  lemma ExtractedRates(cfg: Config, a: Annotations)
    ensures cfg.egress !in a && cfg.ingress !in a ==>
              Extract(cfg, a).rate == Rate(cfg.defaultEgress, cfg.defaultIngress)
    ensures cfg.egress in a || cfg.ingress in a ==>
              var ul := if cfg.egress in a && a[cfg.egress] != "" then Parse(cfg, a[cfg.egress]) else 0;
              var dl := if cfg.ingress in a && a[cfg.ingress] != "" then Parse(cfg, a[cfg.ingress]) else 0;
              && Extract(cfg, a).rate.ul == (if ul == 0 && cfg.defaultEgress > 0 then cfg.defaultEgress else ul)
              && Extract(cfg, a).rate.dl == (if dl == 0 && cfg.defaultIngress > 0 then cfg.defaultIngress else dl)
    ensures forall key :: key != cfg.egress && key != cfg.ingress ==>
              (key in Extract(cfg, a).annotations <==> key in a) &&
              (key in a ==> Extract(cfg, a).annotations[key] == a[key])
  {
  }

  /** Extracting twice gives the same rate and changes nothing the second time. */
  lemma ExtractIsIdempotent(cfg: Config, a: Annotations)
    requires Sound(cfg)
    ensures var x := Extract(cfg, a); Extract(cfg, x.annotations) == x
  {
    DefaultsParse(cfg);
  }

  lemma DefaultsParse(cfg: Config)
    requires Sound(cfg)
    ensures cfg.defaultEgress > 0 ==>
              Parse(cfg, Format(cfg.defaultEgress, cfg.egress)) == cfg.defaultEgress &&
                Format(cfg.defaultEgress, cfg.egress) != ""
    ensures cfg.defaultIngress > 0 ==>
              Parse(cfg, Format(cfg.defaultIngress, cfg.ingress)) == cfg.defaultIngress &&
                Format(cfg.defaultIngress, cfg.ingress) != ""
  {
    if cfg.defaultEgress > 0 { ParseFormat(cfg, cfg.defaultEgress, cfg.egress); }
    if cfg.defaultIngress > 0 { ParseFormat(cfg, cfg.defaultIngress, cfg.ingress); }
  }

  /** What the operator reads from the annotations is what the scheduler reserved. */
  lemma OperatorReadsWhatWasReserved(cfg: Config, a: Annotations)
    requires Sound(cfg)
    ensures var x := Extract(cfg, a);
            && RateOf(cfg, x.annotations) == x.rate
            && (x.rate != Rate(0, 0) ==> HasRate(cfg, x.annotations))
  {
    DefaultsParse(cfg);
  }

  /** With in-range defaults of any sign, the two readings agree exactly when the pod brought an
      annotation or no default is negative. */
  lemma OperatorAgreesIff(cfg: Config, a: Annotations)
    requires ReadsMega(cfg) && cfg.egress != cfg.ingress
    requires cfg.defaultEgress > 0 ==> Expressible(cfg.defaultEgress, cfg.egress)
    requires cfg.defaultIngress > 0 ==> Expressible(cfg.defaultIngress, cfg.ingress)
    ensures var x := Extract(cfg, a);
            RateOf(cfg, x.annotations) == x.rate <==>
              HasRate(cfg, a) || (cfg.defaultEgress >= 0 && cfg.defaultIngress >= 0)
  {
    if cfg.defaultEgress > 0 { ParseFormat(cfg, cfg.defaultEgress, cfg.egress); }
    if cfg.defaultIngress > 0 { ParseFormat(cfg, cfg.defaultIngress, cfg.ingress); }
  }

  /** A negative default breaks it: the scheduler reserves it, the annotation never says so. */
  lemma NegativeDefaultIsLost(cfg: Config, a: Annotations)
    requires !HasRate(cfg, a) && cfg.egress != cfg.ingress && cfg.defaultEgress > 0 && cfg.defaultIngress < 0
    ensures var x := Extract(cfg, a); RateOf(cfg, x.annotations).dl != x.rate.dl
  {
  }

  // ---- NormalizePodBandwidthAnnotations ----

  /** Pairs of egress and ingress keys of the known annotation styles. */
  type Styles = seq<(string, string)>

  const KNOWN: Styles :=
    [(OVN_EGRESS, OVN_INGRESS), (OVN_EGRESS, OVN_INGRESS), (CALICO_EGRESS, CALICO_INGRESS)]

  function ScanKey(cfg: Config, a: Annotations, key: string, standard: string, sofar: int): (int, Annotations)
  {
    var val := ValueAt(cfg, a, key);
    if val > 0 then (val, if key == standard then a else a - {key}) else (sofar, a)
  }

  function ScanStep(cfg: Config, x: Extracted, style: (string, string)): Extracted
  {
    var (ul, a1) := ScanKey(cfg, x.annotations, style.0, cfg.egress, x.rate.ul);
    var (dl, a2) := ScanKey(cfg, a1, style.1, cfg.ingress, x.rate.dl);
    Extracted(Rate(ul, dl), a2)
  }

  /** Going through the styles: the last positive values found, with the keys of other styles removed. */
  function Scan(cfg: Config, styles: Styles, a: Annotations): Extracted
  {
    if styles == [] then Extracted(Rate(0, 0), a)
    else
      var n := |styles| - 1;
      ScanStep(cfg, Scan(cfg, styles[..n], a), styles[n])
  }

  function NormalizeBy(cfg: Config, styles: Styles, a: Annotations): Annotations
  {
    var x := Scan(cfg, styles, a);
    WithDefault(WithDefault(x.annotations, cfg.egress, x.rate.ul), cfg.ingress, x.rate.dl)
  }

  function KnownRate(cfg: Config, a: Annotations): Rate { Scan(cfg, KNOWN, a).rate }

  function Normalize(cfg: Config, a: Annotations): Annotations { NormalizeBy(cfg, KNOWN, a) }

  /** No key serves both directions, among the styles and the configured keys. */
  ghost predicate Straight(cfg: Config, styles: Styles)
  {
    && cfg.egress != cfg.ingress
    && (forall i :: 0 <= i < |styles| ==> styles[i].0 != cfg.ingress && styles[i].1 != cfg.egress)
    && forall i, j :: 0 <= i < |styles| && 0 <= j < |styles| ==> styles[i].0 != styles[j].1
  }

  /** One direction after a scan: other styles' keys hold nothing positive, and a positive
      value under the configured key, if its style was scanned, was picked up. */
  ghost predicate Settled(cfg: Config, keys: seq<string>, standard: string, a: Annotations, value: int)
  {
    && value >= 0
    && forall j :: 0 <= j < |keys| ==>
         if keys[j] == standard then ValueAt(cfg, a, standard) > 0 ==> value > 0
         else ValueAt(cfg, a, keys[j]) <= 0
  }

  ghost function EgressKeys(styles: Styles): seq<string> { seq(|styles|, i requires 0 <= i < |styles| => styles[i].0) }

  ghost function IngressKeys(styles: Styles): seq<string> { seq(|styles|, i requires 0 <= i < |styles| => styles[i].1) }

  lemma SettledStep(cfg: Config, keys: seq<string>, standard: string, a: Annotations, value: int)
    requires keys != [] && Settled(cfg, keys[..|keys| - 1], standard, a, value)
    ensures var (v, b) := ScanKey(cfg, a, keys[|keys| - 1], standard, value); Settled(cfg, keys, standard, b, v)
  {
    var n := |keys| - 1;
    var (v, b) := ScanKey(cfg, a, keys[n], standard, value);
    forall j | 0 <= j < |keys|
      ensures if keys[j] == standard then ValueAt(cfg, b, standard) > 0 ==> v > 0 else ValueAt(cfg, b, keys[j]) <= 0
    {
      if j < n { assert keys[..n][j] == keys[j]; }
    }
  }

  /** Scanning a key of the other direction does not disturb this one. */
  lemma SettledAside(cfg: Config, keys: seq<string>, standard: string, a: Annotations, value: int, other: string,
                     otherStandard: string, sofar: int)
    requires Settled(cfg, keys, standard, a, value) && other != standard && other !in keys
    ensures Settled(cfg, keys, standard, ScanKey(cfg, a, other, otherStandard, sofar).1, value)
  {
    var b := ScanKey(cfg, a, other, otherStandard, sofar).1;
    forall j | 0 <= j < |keys| ensures ValueAt(cfg, b, keys[j]) == ValueAt(cfg, a, keys[j]) { assert keys[j] in keys; }
  }

  lemma {:induction false} ScanSettles(cfg: Config, styles: Styles, a: Annotations)
    requires Straight(cfg, styles)
    ensures var x := Scan(cfg, styles, a);
            && Settled(cfg, EgressKeys(styles), cfg.egress, x.annotations, x.rate.ul)
            && Settled(cfg, IngressKeys(styles), cfg.ingress, x.annotations, x.rate.dl)
  {
    if styles != [] {
      var n := |styles| - 1;
      ScanSettles(cfg, styles[..n], a);
      var x := Scan(cfg, styles[..n], a);
      assert EgressKeys(styles)[..n] == EgressKeys(styles[..n]) && IngressKeys(styles)[..n] == IngressKeys(styles[..n]);
      var (ul, a1) := ScanKey(cfg, x.annotations, styles[n].0, cfg.egress, x.rate.ul);
      SettledStep(cfg, EgressKeys(styles), cfg.egress, x.annotations, x.rate.ul);
      SettledAside(cfg, IngressKeys(styles[..n]), cfg.ingress, x.annotations, x.rate.dl, styles[n].0, cfg.egress,
        x.rate.ul);
      SettledStep(cfg, IngressKeys(styles), cfg.ingress, a1, x.rate.dl);
      SettledAside(cfg, EgressKeys(styles), cfg.egress, a1, ul, styles[n].1, cfg.ingress, x.rate.dl);
    }
  }

  /** Scanning settled annotations removes nothing and finds at most the configured values. */
  lemma {:induction false} ScanOfSettled(cfg: Config, styles: Styles, a: Annotations, ul: int, dl: int)
    requires Settled(cfg, EgressKeys(styles), cfg.egress, a, ul) &&
             Settled(cfg, IngressKeys(styles), cfg.ingress, a, dl)
    ensures var x := Scan(cfg, styles, a);
            && x.annotations == a
            && (x.rate.ul <= 0 || (x.rate.ul == ValueAt(cfg, a, cfg.egress) && ul > 0))
            && (x.rate.dl <= 0 || (x.rate.dl == ValueAt(cfg, a, cfg.ingress) && dl > 0))
  {
    if styles != [] {
      var n := |styles| - 1;
      assert forall j :: 0 <= j < n ==> EgressKeys(styles[..n])[j] == EgressKeys(styles)[j];
      assert forall j :: 0 <= j < n ==> IngressKeys(styles[..n])[j] == IngressKeys(styles)[j];
      ScanOfSettled(cfg, styles[..n], a, ul, dl);
      assert EgressKeys(styles)[n] == styles[n].0 && IngressKeys(styles)[n] == styles[n].1;
    }
  }

  lemma WrittenValues(cfg: Config, x: Extracted, y: Annotations)
    requires ReadsMega(cfg) && cfg.egress != cfg.ingress
    requires (x.rate.ul > 0 ==> Expressible(x.rate.ul, cfg.egress)) &&
             (x.rate.dl > 0 ==> Expressible(x.rate.dl, cfg.ingress))
    requires y == WithDefault(WithDefault(x.annotations, cfg.egress, x.rate.ul), cfg.ingress, x.rate.dl)
    ensures ValueAt(cfg, y, cfg.egress) == if x.rate.ul > 0 then x.rate.ul else ValueAt(cfg, x.annotations, cfg.egress)
    ensures ValueAt(cfg, y, cfg.ingress) == if x.rate.dl > 0 then x.rate.dl
            else ValueAt(cfg, x.annotations, cfg.ingress)
    ensures forall k :: k != cfg.egress && k != cfg.ingress ==> ValueAt(cfg, y, k) == ValueAt(cfg, x.annotations, k)
    ensures x.rate.ul > 0 ==> cfg.egress in y && y[cfg.egress] == Format(x.rate.ul, cfg.egress)
    ensures x.rate.dl > 0 ==> cfg.ingress in y && y[cfg.ingress] == Format(x.rate.dl, cfg.ingress)
  {
    if x.rate.ul > 0 { ParseFormat(cfg, x.rate.ul, cfg.egress); }
    if x.rate.dl > 0 { ParseFormat(cfg, x.rate.dl, cfg.ingress); }
  }

  lemma SettledAfterWrite(cfg: Config, keys: seq<string>, standard: string, other: string, a: Annotations,
                          y: Annotations, value: int)
    requires Settled(cfg, keys, standard, a, value) && other !in keys
    requires ValueAt(cfg, y, standard) == if value > 0 then value else ValueAt(cfg, a, standard)
    requires forall k :: k != standard && k != other ==> ValueAt(cfg, y, k) == ValueAt(cfg, a, k)
    ensures Settled(cfg, keys, standard, y, value)
  {
    forall j | 0 <= j < |keys|
      ensures if keys[j] == standard then ValueAt(cfg, y, standard) > 0 ==> value > 0 else ValueAt(cfg, y, keys[j]) <= 0
    {
      assert keys[j] in keys;
    }
  }

  lemma NormalizeByIsIdempotent(cfg: Config, styles: Styles, a: Annotations)
    requires ReadsMega(cfg) && Straight(cfg, styles)
    requires var r := Scan(cfg, styles, a).rate;
             && (r.ul > 0 ==> Expressible(r.ul, cfg.egress)) && (r.dl > 0 ==> Expressible(r.dl, cfg.ingress))
    ensures NormalizeBy(cfg, styles, NormalizeBy(cfg, styles, a)) == NormalizeBy(cfg, styles, a)
  {
    var x := Scan(cfg, styles, a);
    var y := NormalizeBy(cfg, styles, a);
    ScanSettles(cfg, styles, a);
    WrittenValues(cfg, x, y);
    assert cfg.ingress !in EgressKeys(styles) && cfg.egress !in IngressKeys(styles);
    SettledAfterWrite(cfg, EgressKeys(styles), cfg.egress, cfg.ingress, x.annotations, y, x.rate.ul);
    SettledAfterWrite(cfg, IngressKeys(styles), cfg.ingress, cfg.egress, x.annotations, y, x.rate.dl);
    ScanOfSettled(cfg, styles, y, x.rate.ul, x.rate.dl);
    RewriteChangesNothing(cfg, y, Scan(cfg, styles, y).rate, x.rate);
  }

  lemma RewriteChangesNothing(cfg: Config, y: Annotations, again: Rate, first: Rate)
    requires again.ul > 0 ==> again.ul == first.ul && cfg.egress in y && y[cfg.egress] == Format(first.ul, cfg.egress)
    requires again.dl > 0 ==>
             again.dl == first.dl && cfg.ingress in y && y[cfg.ingress] == Format(first.dl, cfg.ingress)
    ensures WithDefault(WithDefault(y, cfg.egress, again.ul), cfg.ingress, again.dl) == y
  {
  }

  /** The configured keys are not another direction's known key. */
  predicate DirectionsKept(cfg: Config)
  {
    && cfg.egress != cfg.ingress
    && cfg.egress != OVN_INGRESS && cfg.egress != CALICO_INGRESS
    && cfg.ingress != OVN_EGRESS && cfg.ingress != CALICO_EGRESS
  }

  lemma KnownStylesAreStraight(cfg: Config)
    requires DirectionsKept(cfg)
    ensures Straight(cfg, KNOWN)
  {
    KnownKeysDiffer();
  }

  lemma KnownKeysDiffer()
    ensures OVN_EGRESS != OVN_INGRESS && OVN_EGRESS != CALICO_EGRESS && OVN_EGRESS != CALICO_INGRESS
    ensures OVN_INGRESS != CALICO_EGRESS && OVN_INGRESS != CALICO_INGRESS && CALICO_EGRESS != CALICO_INGRESS
  {
    assert |OVN_EGRESS| == 29 && |OVN_INGRESS| == 30 && |CALICO_EGRESS| == 30 && |CALICO_INGRESS| == 31;
    assert OVN_INGRESS[0] == 'o' && CALICO_EGRESS[0] == 'k';
  }

  /** A second normalization of a pod's annotations changes nothing. */
  lemma NormalizeIsIdempotent(cfg: Config, a: Annotations)
    requires ReadsMega(cfg) && DirectionsKept(cfg)
    requires KnownRate(cfg, a).ul > 0 ==> Expressible(KnownRate(cfg, a).ul, cfg.egress)
    requires KnownRate(cfg, a).dl > 0 ==> Expressible(KnownRate(cfg, a).dl, cfg.ingress)
    ensures Normalize(cfg, Normalize(cfg, a)) == Normalize(cfg, a)
  {
    KnownStylesAreStraight(cfg);
    NormalizeByIsIdempotent(cfg, KNOWN, a);
  }

  // ---- Configured keys that cross directions ----

  lemma ScanOfKnown(cfg: Config, a: Annotations)
    ensures var x := ScanStep(cfg, Extracted(Rate(0, 0), a), KNOWN[0]);
            Scan(cfg, KNOWN, a) == ScanStep(cfg, ScanStep(cfg, x, KNOWN[1]), KNOWN[2])
  {
    assert KNOWN[..2][..1] == KNOWN[..1] && KNOWN[..1][..0] == [];
    assert Scan(cfg, KNOWN[..1], a) == ScanStep(cfg, Scan(cfg, [], a), KNOWN[0]);
    assert Scan(cfg, KNOWN[..2], a) == ScanStep(cfg, Scan(cfg, KNOWN[..1], a), KNOWN[1]);
  }

  /** The rates found: the Calico style wins over the OVN style, and only positive values count. */
  lemma KnownRates(cfg: Config, a: Annotations)
    ensures var calico, ovn := ValueAt(cfg, a, CALICO_EGRESS), ValueAt(cfg, a, OVN_EGRESS);
            KnownRate(cfg, a).ul == if calico > 0 then calico else if ovn > 0 then ovn else 0
    ensures var calico, ovn := ValueAt(cfg, a, CALICO_INGRESS), ValueAt(cfg, a, OVN_INGRESS);
            KnownRate(cfg, a).dl == if calico > 0 then calico else if ovn > 0 then ovn else 0
  {
    KnownKeysDiffer();
    ScanOfKnown(cfg, a);
    var x := ScanStep(cfg, Extracted(Rate(0, 0), a), KNOWN[0]);
    ReadsBoth(cfg, Extracted(Rate(0, 0), a), KNOWN[0]);
    ReadsBoth(cfg, x, KNOWN[1]);
    ReadsBoth(cfg, ScanStep(cfg, x, KNOWN[1]), KNOWN[2]);
  }

  /** One style: its positive values are picked up, and only its own keys can disappear. */
  lemma ReadsBoth(cfg: Config, x: Extracted, style: (string, string))
    requires style.0 != style.1
    ensures var y := ScanStep(cfg, x, style);
            var ul, dl := ValueAt(cfg, x.annotations, style.0), ValueAt(cfg, x.annotations, style.1);
            && y.rate == Rate(if ul > 0 then ul else x.rate.ul, if dl > 0 then dl else x.rate.dl)
            && (ValueAt(cfg, y.annotations, style.0) > 0 ==> ValueAt(cfg, y.annotations, style.0) == ul)
            && (ValueAt(cfg, y.annotations, style.1) > 0 ==> ValueAt(cfg, y.annotations, style.1) == dl)
            && forall key :: key != style.0 && key != style.1 ==>
                 ValueAt(cfg, y.annotations, key) == ValueAt(cfg, x.annotations, key)
  {
  }

  /** After normalization the configured keys say what was found. */
  lemma NormalizedRates(cfg: Config, a: Annotations)
    requires ReadsMega(cfg) && cfg.egress != cfg.ingress && Writable(cfg, a)
    ensures KnownRate(cfg, a).ul > 0 ==> ValueAt(cfg, Normalize(cfg, a), cfg.egress) == KnownRate(cfg, a).ul
    ensures KnownRate(cfg, a).dl > 0 ==> ValueAt(cfg, Normalize(cfg, a), cfg.ingress) == KnownRate(cfg, a).dl
  {
    WrittenValues(cfg, Scan(cfg, KNOWN, a), Normalize(cfg, a));
  }

  predicate IsEgressKey(key: string) { key == OVN_EGRESS || key == CALICO_EGRESS }

  predicate IsIngressKey(key: string) { key == OVN_INGRESS || key == CALICO_INGRESS }

  /** A pod that asks for 3 Mbps out and 5 Mbps in. */
  function TwoRates(e: string, i: string): Annotations { map[e := Format(3, e), i := Format(5, i)] }

  lemma SmallRates(cfg: Config, key: string)
    requires ReadsMega(cfg)
    ensures Parse(cfg, Format(3, key)) == 3 && Parse(cfg, Format(5, key)) == 5
    ensures Format(3, key) != "" && Format(5, key) != "" && Format(3, key) != Format(5, key)
  {
    ParseFormat(cfg, 3, key);
    ParseFormat(cfg, 5, key);
  }

  /** A style none of whose keys is configured, where annotated, is read and dropped. */
  lemma OtherStyle(cfg: Config, x: Extracted, style: (string, string))
    requires style.0 != style.1
    requires style.0 in x.annotations ==> style.0 != cfg.egress && ValueAt(cfg, x.annotations, style.0) > 0
    requires style.1 in x.annotations ==> style.1 != cfg.ingress && ValueAt(cfg, x.annotations, style.1) > 0
    ensures ScanStep(cfg, x, style) ==
            Extracted(Rate(if style.0 in x.annotations then ValueAt(cfg, x.annotations, style.0) else x.rate.ul,
                           if style.1 in x.annotations then ValueAt(cfg, x.annotations, style.1) else x.rate.dl),
                      x.annotations - {style.0, style.1})
  {
    var (ul, a1) := ScanKey(cfg, x.annotations, style.0, cfg.egress, x.rate.ul);
    assert a1 == x.annotations - {style.0};
    assert a1 - {style.1} == x.annotations - {style.0, style.1};
  }

  /** Both keys are of other styles than the configured ones, so both are picked up and dropped. */
  lemma BothAreDropped(cfg: Config, e: string, i: string)
    requires ReadsMega(cfg) && IsEgressKey(e) && IsIngressKey(i) && e != cfg.egress && i != cfg.ingress
    ensures Scan(cfg, KNOWN, TwoRates(e, i)) == Extracted(Rate(3, 5), map[])
  {
    var a := TwoRates(e, i);
    KnownKeysDiffer();
    SmallRates(cfg, e);
    SmallRates(cfg, i);
    ScanOfKnown(cfg, a);
    var x := ScanStep(cfg, Extracted(Rate(0, 0), a), KNOWN[0]);
    OtherStyle(cfg, Extracted(Rate(0, 0), a), KNOWN[0]);
    OtherStyle(cfg, x, KNOWN[1]);
    assert ScanStep(cfg, x, KNOWN[1]) == x;
    OtherStyle(cfg, x, KNOWN[2]);
    assert x.annotations - {CALICO_EGRESS, CALICO_INGRESS} == map[];
  }

  ghost predicate SubMap(a: Annotations, b: Annotations) { forall k :: k in a ==> k in b && a[k] == b[k] }

  /** What a scan of the normalized annotations keeps when the configured egress key is a known
      ingress key: the uplink found is not the one written. */
  ghost predicate EgressLost(cfg: Config, x: Extracted)
  {
    && SubMap(x.annotations, TwoRates(cfg.egress, cfg.ingress)) && (x.rate.ul == 0 || x.rate.ul == 5)
  }

  lemma EgressLostStep(cfg: Config, x: Extracted, style: (string, string))
    requires ReadsMega(cfg) && cfg.egress != cfg.ingress && style.0 != cfg.egress && EgressLost(cfg, x)
    ensures EgressLost(cfg, ScanStep(cfg, x, style))
    ensures style.1 == cfg.egress || cfg.egress !in x.annotations ==>
              cfg.egress !in ScanStep(cfg, x, style).annotations
  {
    var a := ScanKey(cfg, x.annotations, style.0, cfg.egress, x.rate.ul).1;
    SubMapValue(cfg, x.annotations, style.0);
    SubMapValue(cfg, a, style.1);
  }

  ghost predicate IngressLost(cfg: Config, x: Extracted)
  {
    && SubMap(x.annotations, TwoRates(cfg.egress, cfg.ingress)) && (x.rate.dl == 0 || x.rate.dl == 3)
  }

  lemma IngressLostStep(cfg: Config, x: Extracted, style: (string, string))
    requires ReadsMega(cfg) && cfg.egress != cfg.ingress && style.1 != cfg.ingress && IngressLost(cfg, x)
    ensures IngressLost(cfg, ScanStep(cfg, x, style))
    ensures style.0 == cfg.ingress || cfg.ingress !in x.annotations ==>
              cfg.ingress !in ScanStep(cfg, x, style).annotations
  {
    var a := ScanKey(cfg, x.annotations, style.0, cfg.egress, x.rate.ul).1;
    SubMapValue(cfg, x.annotations, style.0);
    SubMapValue(cfg, a, style.1);
  }

  /** Whatever is left of the two rates is read as written. */
  lemma SubMapValue(cfg: Config, a: Annotations, key: string)
    requires ReadsMega(cfg) && cfg.egress != cfg.ingress && SubMap(a, TwoRates(cfg.egress, cfg.ingress))
    ensures ValueAt(cfg, a, key) == if key !in a then 0 else if key == cfg.egress then 3 else 5
    ensures key in a ==> key == cfg.egress || key == cfg.ingress
  {
    SmallRates(cfg, cfg.egress);
    SmallRates(cfg, cfg.ingress);
  }

  /** Writing both rates under crossed keys does not last: the next normalization takes one for
      the other direction. */
  lemma CrossedRatesChange(cfg: Config)
    requires ReadsMega(cfg) && cfg.egress != cfg.ingress && !DirectionsKept(cfg)
    ensures Normalize(cfg, TwoRates(cfg.egress, cfg.ingress)) != TwoRates(cfg.egress, cfg.ingress)
  {
    var y := TwoRates(cfg.egress, cfg.ingress);
    var x0 := Extracted(Rate(0, 0), y);
    var x1 := ScanStep(cfg, x0, KNOWN[0]);
    var x2 := ScanStep(cfg, x1, KNOWN[1]);
    KnownKeysDiffer();
    ScanOfKnown(cfg, y);
    SmallRates(cfg, cfg.egress);
    SmallRates(cfg, cfg.ingress);
    if IsIngressKey(cfg.egress) {
      EgressLostStep(cfg, x0, KNOWN[0]);
      EgressLostStep(cfg, x1, KNOWN[1]);
      EgressLostStep(cfg, x2, KNOWN[2]);
    } else {
      IngressLostStep(cfg, x0, KNOWN[0]);
      IngressLostStep(cfg, x1, KNOWN[1]);
      IngressLostStep(cfg, x2, KNOWN[2]);
    }
  }

  /** The rate found is one that the configured keys can express. */
  ghost predicate Writable(cfg: Config, a: Annotations)
  {
    && (KnownRate(cfg, a).ul > 0 ==> Expressible(KnownRate(cfg, a).ul, cfg.egress))
    && (KnownRate(cfg, a).dl > 0 ==> Expressible(KnownRate(cfg, a).dl, cfg.ingress))
  }

  /** With different keys, a second normalization changes nothing on all pods exactly when
      neither configured key is a known key of the other direction. */
  lemma NormalizeIsIdempotentIff(cfg: Config)
    requires ReadsMega(cfg) && cfg.egress != cfg.ingress
    ensures (forall a :: Writable(cfg, a) ==> Normalize(cfg, Normalize(cfg, a)) == Normalize(cfg, a)) <==>
            DirectionsKept(cfg)
  {
    if DirectionsKept(cfg) {
      forall a | Writable(cfg, a)
        ensures Normalize(cfg, Normalize(cfg, a)) == Normalize(cfg, a)
      {
        NormalizeIsIdempotent(cfg, a);
      }
    } else {
      var a := CrossedInput(cfg);
      assert Normalize(cfg, a) == TwoRates(cfg.egress, cfg.ingress);
      CrossedRatesChange(cfg);
    }
  }

  /** Some annotations of other styles make a crossed configuration write both rates. */
  lemma CrossedInput(cfg: Config) returns (a: Annotations)
    requires ReadsMega(cfg) && cfg.egress != cfg.ingress && !DirectionsKept(cfg)
    ensures Writable(cfg, a) && Normalize(cfg, a) == TwoRates(cfg.egress, cfg.ingress)
  {
    var e := if cfg.egress == OVN_EGRESS then CALICO_EGRESS else OVN_EGRESS;
    var i := if cfg.ingress == OVN_INGRESS then CALICO_INGRESS else OVN_INGRESS;
    KnownKeysDiffer();
    BothAreDropped(cfg, e, i);
    a := TwoRates(e, i);
  }
}
