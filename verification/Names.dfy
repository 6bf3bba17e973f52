/** Names that carry data: Pod names end in the StatefulSet index, scheduled backup objects end in a timestamp.
    Both are read back from the part after the last hyphen. */
module Names {
  import opened Prelude

  // ---------------------------------------------------------------------------------------------
  // Splitting
  // ---------------------------------------------------------------------------------------------

  /** strings.Split(s, sep) for a separator of one character. */
  function Split(s: string, sep: char): (parts: seq<string>)
    ensures |parts| >= 1
  {
    if s == "" then [""]
    else if s[0] == sep then [""] + Split(s[1..], sep)
    else
      var rest := Split(s[1..], sep);
      [[s[0]] + rest[0]] + rest[1..]
  }

  function Join(parts: seq<string>, sep: char): string
    requires |parts| >= 1
  {
    if |parts| == 1 then parts[0] else parts[0] + [sep] + Join(parts[1..], sep)
  }

  lemma {:induction false} JoinFirst(c: char, rest: seq<string>, sep: char)
    requires |rest| >= 1
    ensures Join([[c] + rest[0]] + rest[1..], sep) == [c] + Join(rest, sep)
  {
    var parts := [[c] + rest[0]] + rest[1..];
    if |rest| > 1 {
      var tail := [sep] + Join(rest[1..], sep);
      assert parts[1..] == rest[1..] && parts[0] == [c] + rest[0];
      assert Join(parts, sep) == parts[0] + [sep] + Join(rest[1..], sep) == parts[0] + tail;
      assert Join(rest, sep) == rest[0] + [sep] + Join(rest[1..], sep) == rest[0] + tail;
      assert [c] + rest[0] + tail == [c] + (rest[0] + tail);
    }
  }

  /** Split is determined by these two facts: no part has the separator, and joining them gives the string back. */
  lemma {:induction false} SplitJoin(s: string, sep: char)
    ensures forall p :: p in Split(s, sep) ==> sep !in p
    ensures Join(Split(s, sep), sep) == s
  {
    if s != "" {
      SplitJoin(s[1..], sep);
      var rest := Split(s[1..], sep);
      assert [s[0]] + s[1..] == s;
      if s[0] == sep {
        assert ([""] + rest)[1..] == rest;
        assert "" + [sep] + s[1..] == s;
      } else {
        JoinFirst(s[0], rest, sep);
        assert rest[0] in rest && forall p :: p in rest[1..] ==> p in rest;
      }
    }
  }

  lemma {:induction false} SplitNoSeparator(s: string, sep: char)
    requires sep !in s
    ensures Split(s, sep) == [s]
  {
    if s != "" {
      SplitNoSeparator(s[1..], sep);
      assert [s[0]] + s[1..] == s;
    }
  }

  lemma PrependToFirst(c: char, rest: seq<string>, more: seq<string>)
    requires |rest| >= 1
    ensures [[c] + (rest + more)[0]] + (rest + more)[1..] == [[c] + rest[0]] + rest[1..] + more
  {
    assert (rest + more)[0] == rest[0] && (rest + more)[1..] == rest[1..] + more;
  }

  /** Splitting goes through a separator. */
  lemma {:induction false} SplitConcat(a: string, b: string, sep: char)
    ensures Split(a + [sep] + b, sep) == Split(a, sep) + Split(b, sep)
  {
    var s := a + [sep] + b;
    if a == "" {
      assert s[0] == sep && s[1..] == b;
    } else {
      assert s[0] == a[0] && s[1..] == a[1..] + [sep] + b;
      SplitConcat(a[1..], b, sep);
      if a[0] == sep {
        assert [""] + (Split(a[1..], sep) + Split(b, sep)) == [""] + Split(a[1..], sep) + Split(b, sep);
      } else {
        PrependToFirst(a[0], Split(a[1..], sep), Split(b, sep));
      }
    }
  }

  function LastPart(s: string): string {
    var parts := Split(s, '-');
    parts[|parts| - 1]
  }

  /** What comes before the last hyphen. */
  function BasePart(s: string): string
    requires |Split(s, '-')| >= 2
  {
    var parts := Split(s, '-');
    Join(parts[..|parts| - 1], '-')
  }

  /** A hyphen-free suffix and the base in front of it are recovered whatever hyphens the base has. */
  lemma LastPartOfSuffixed(base: string, suffix: string)
    requires '-' !in suffix
    ensures |Split(base + "-" + suffix, '-')| >= 2
    ensures LastPart(base + "-" + suffix) == suffix && BasePart(base + "-" + suffix) == base
  {
    assert "-" == ['-'];
    SplitConcat(base, suffix, '-');
    SplitNoSeparator(suffix, '-');
    SplitJoin(base, '-');
    var parts := Split(base, '-') + [suffix];
    assert parts[..|parts| - 1] == Split(base, '-');
  }

  // ---------------------------------------------------------------------------------------------
  // Decimal numbers
  // ---------------------------------------------------------------------------------------------

  const MAX_INT := 0x7FFF_FFFF_FFFF_FFFF

  predicate IsDigit(c: char) {
    '0' <= c <= '9'
  }

  predicate AllDigits(s: string) {
    forall i :: 0 <= i < |s| ==> IsDigit(s[i])
  }

  function DigitValue(c: char): (v: nat)
    requires IsDigit(c)
    ensures v < 10
  {
    c as int - '0' as int
  }

  function DigitChar(v: nat): (c: char)
    requires v < 10
    ensures IsDigit(c) && DigitValue(c) == v
  {
    ('0' as int + v) as char
  }

  function Value(s: string): nat
    requires AllDigits(s)
  {
    if s == "" then 0 else Value(s[..|s| - 1]) * 10 + DigitValue(s[|s| - 1])
  }

  /** fmt's %d for a non-negative number. */
  function Decimal(n: nat): (s: string)
    ensures s != "" && AllDigits(s) && (n > 0 ==> s[0] != '0')
  {
    assert n > 0 && n < 10 ==> DigitValue(DigitChar(n)) != DigitValue('0');
    if n < 10 then [DigitChar(n)] else Decimal(n / 10) + [DigitChar(n % 10)]
  }

  lemma {:induction false} DecimalValue(n: nat)
    ensures Value(Decimal(n)) == n
  {
    var s := Decimal(n);
    if n < 10 {
      assert s[..|s| - 1] == "";
    } else {
      DecimalValue(n / 10);
      assert s[..|s| - 1] == Decimal(n / 10);
    }
  }

  /** strconv.Atoi on 64-bit integers: an optional sign, then digits only, and a range check. */
  function Atoi(s: string): Option<int> {
    var signed := s != "" && (s[0] == '+' || s[0] == '-');
    var digits := if signed then s[1..] else s;
    if digits == "" || !AllDigits(digits) then None
    else
      var v: int := Value(digits);
      if signed && s[0] == '-' then (if v <= MAX_INT + 1 then Some(-v) else None)
      else if v <= MAX_INT then Some(v) else None
  }

  // ---------------------------------------------------------------------------------------------
  // Pod names
  // ---------------------------------------------------------------------------------------------

  function PodName(name: string, index: nat): string {
    name + "-" + Decimal(index)
  }

  function PodIndex(podName: string): Option<int> {
    Atoi(LastPart(podName))
  }

  lemma DigitsHaveNoHyphen(s: string)
    requires AllDigits(s)
    ensures '-' !in s && '+' !in s && '.' !in s
  {
    assert !IsDigit('-') && !IsDigit('+') && !IsDigit('.');
  }

  /** The index is read back from the Pod name, for any base name; so Pod names are injective in the index. */
  lemma PodIndexRoundTrip(name: string, index: nat)
    requires index <= MAX_INT
    ensures PodIndex(PodName(name, index)) == Some(index)
    ensures |Split(PodName(name, index), '-')| >= 2 && BasePart(PodName(name, index)) == name
  {
    DigitsHaveNoHyphen(Decimal(index));
    LastPartOfSuffixed(name, Decimal(index));
    DecimalValue(index);
    assert Decimal(index)[0] in Decimal(index);
  }

  lemma PodNameInjective(name: string, i: nat, j: nat)
    ensures PodName(name, i) == PodName(name, j) ==> i == j
  {
    DigitsHaveNoHyphen(Decimal(i));
    DigitsHaveNoHyphen(Decimal(j));
    LastPartOfSuffixed(name, Decimal(i));
    LastPartOfSuffixed(name, Decimal(j));
    DecimalValue(i);
    DecimalValue(j);
  }

  function PodFQDN(name: string, index: nat, service: string, namespace: string, cluster: string): string {
    PodName(name, index) + "." + (service + "." + namespace + ".svc." + cluster)
  }

  /** A Pod's address, taken apart again: index of the Pod, its MariaDB, Service and namespace. */
  datatype PodAddress = PodAddress(index: int, name: string, service: string, namespace: string)

  function ParsePodFQDN(address: string): Option<PodAddress> {
    var parts := Split(address, '.');
    if |parts| < 5 || parts[3] != "svc" || |Split(parts[0], '-')| < 2 then None
    else
      var index := PodIndex(parts[0]);
      if index.None? then None else Some(PodAddress(index.value, BasePart(parts[0]), parts[1], parts[2]))
  }

  lemma {:induction false} SplitLabel(part: string, rest: string)
    requires '.' !in part
    ensures Split(part + ['.'] + rest, '.') == [part] + Split(rest, '.')
  {
    SplitNoSeparator(part, '.');
    SplitConcat(part, rest, '.');
  }

  lemma ServiceFQDNNested(service: string, namespace: string, cluster: string)
    ensures service + "." + namespace + ".svc." + cluster == service + ['.'] + (namespace + ['.'] + ("svc" + ['.'] + cluster))
  {
    assert ".svc." + cluster == ['.'] + ("svc" + ['.'] + cluster);
  }

  lemma {:induction false} ServiceLabels(service: string, namespace: string, cluster: string)
    requires '.' !in service && '.' !in namespace
    ensures Split(service + "." + namespace + ".svc." + cluster, '.') == [service] + ([namespace] + (["svc"] + Split(cluster, '.')))
  {
    SplitLabel("svc", cluster);
    SplitLabel(namespace, "svc" + ['.'] + cluster);
    SplitLabel(service, namespace + ['.'] + ("svc" + ['.'] + cluster));
    ServiceFQDNNested(service, namespace, cluster);
  }

  /** The labels of an address, in order. */
  lemma {:induction false} PodFQDNLabels(name: string, index: nat, service: string, namespace: string, cluster: string)
    requires '.' !in name && '.' !in service && '.' !in namespace
    ensures Split(PodFQDN(name, index, service, namespace, cluster), '.')
         == [PodName(name, index), service, namespace, "svc"] + Split(cluster, '.')
  {
    var pod, fqdn := PodName(name, index), service + "." + namespace + ".svc." + cluster;
    DigitsHaveNoHyphen(Decimal(index));
    ServiceLabels(service, namespace, cluster);
    SplitLabel(pod, fqdn);
    assert pod + "." + fqdn == pod + ['.'] + fqdn;
    assert [pod] + ([service] + ([namespace] + (["svc"] + Split(cluster, '.')))) == [pod, service, namespace, "svc"] + Split(cluster, '.');
  }

  /** A Pod's address leads back to the Pod, its MariaDB, the Service and the namespace. */
  lemma PodFQDNRoundTrip(name: string, index: nat, service: string, namespace: string, cluster: string)
    requires '.' !in name && '.' !in service && '.' !in namespace && index <= MAX_INT
    ensures ParsePodFQDN(PodFQDN(name, index, service, namespace, cluster)) == Some(PodAddress(index, name, service, namespace))
  {
    PodFQDNLabels(name, index, service, namespace, cluster);
    PodIndexRoundTrip(name, index);
  }

  lemma PodFQDNInjective(name: string, i: nat, j: nat, service: string, namespace: string, cluster: string)
    ensures PodFQDN(name, i, service, namespace, cluster) == PodFQDN(name, j, service, namespace, cluster) ==> i == j
  {
    var suffix := "." + (service + "." + namespace + ".svc." + cluster);
    var a, b := PodName(name, i), PodName(name, j);
    assert PodFQDN(name, i, service, namespace, cluster) == a + suffix;
    assert PodFQDN(name, j, service, namespace, cluster) == b + suffix;
    if a + suffix == b + suffix {
      assert |a| == |b|;
      assert a == (a + suffix)[..|a|] && b == (b + suffix)[..|b|];
      PodNameInjective(name, i, j);
    }
  }

  // ---------------------------------------------------------------------------------------------
  // Timestamps
  // ---------------------------------------------------------------------------------------------

  /** A UTC time, broken down as in the layout 20060102150405. */
  datatype Time = Time(year: nat, month: nat, day: nat, hour: nat, minute: nat, second: nat, nanos: nat)

  predicate LeapYear(y: nat) {
    y % 4 == 0 && (y % 100 != 0 || y % 400 == 0)
  }

  function DaysIn(year: nat, month: nat): nat {
    if month == 2 then (if LeapYear(year) then 29 else 28)
    else if month in {4, 6, 9, 11} then 30
    else 31
  }

  predicate ValidTime(t: Time) {
    && 1 <= t.month <= 12 && 1 <= t.day <= DaysIn(t.year, t.month)
    && t.hour < 24 && t.minute < 60 && t.second < 60 && t.nanos < 1_000_000_000
  }

  /** Zero-padded decimal; longer numbers are not cut. */
  function Pad(n: nat, width: nat): (s: string)
    ensures AllDigits(s)
  {
    var d := Decimal(n);
    if |d| >= width then d else seq(width - |d|, i => '0') + d
  }

  function Format(t: Time): (s: string)
    ensures AllDigits(s)
  {
    Pad(t.year, 4) + Pad(t.month, 2) + Pad(t.day, 2) + Pad(t.hour, 2) + Pad(t.minute, 2) + Pad(t.second, 2)
  }

  function Pow10(n: nat): nat {
    if n == 0 then 1 else 10 * Pow10(n - 1)
  }

  /** Go accepts a fraction after the seconds even though the layout has none; nine digits of it count. */
  function ParseFraction(s: string): Option<nat> {
    if s == "" then Some(0)
    else if s[0] in {'.', ','} && |s| >= 2 && AllDigits(s[1..]) then
      var digits := if |s| > 10 then s[1..10] else s[1..];
      Some(Value(digits) * Pow10(9 - |digits|))
    else None
  }

  function Parse(s: string): Option<Time> {
    if |s| < 14 || !AllDigits(s[..14]) then None
    else
      var fraction := ParseFraction(s[14..]);
      if fraction.None? then None
      else
        var t := Time(Value(s[..4]), Value(s[4..6]), Value(s[6..8]), Value(s[8..10]), Value(s[10..12]),
                      Value(s[12..14]), fraction.value);
        if 1 <= t.month <= 12 && 1 <= t.day <= DaysIn(t.year, t.month) && t.hour < 24 && t.minute < 60 && t.second < 60
        then Some(t) else None
  }

  lemma {:induction false} DecimalLength(n: nat, k: nat)
    requires n < Pow10(k) && k >= 1
    ensures |Decimal(n)| <= k
  {
    if n >= 10 {
      assert k >= 2 by {
        assert Pow10(1) == 10;
      }
      DecimalLength(n / 10, k - 1);
    }
  }

  lemma {:induction false} DecimalLengthExceeds(n: nat, k: nat)
    requires n >= Pow10(k)
    ensures |Decimal(n)| > k
  {
    if k > 0 {
      assert n / 10 >= Pow10(k - 1);
      Pow10Positive(k - 1);
      DecimalLengthExceeds(n / 10, k - 1);
    }
  }

  lemma {:induction false} Pow10Positive(k: nat)
    ensures Pow10(k) >= 1
  {
    if k > 0 {
      Pow10Positive(k - 1);
    }
  }

  lemma {:induction false} ValueOfLeadingZeros(zeros: nat, s: string)
    requires AllDigits(s)
    ensures AllDigits(seq(zeros, i => '0') + s)
    ensures Value(seq(zeros, i => '0') + s) == Value(s)
    decreases zeros + |s|
  {
    var padded := seq(zeros, i => '0') + s;
    if s != "" {
      ValueOfLeadingZeros(zeros, s[..|s| - 1]);
      assert padded[..|padded| - 1] == seq(zeros, i => '0') + s[..|s| - 1];
    } else if zeros > 0 {
      ValueOfLeadingZeros(zeros - 1, "");
      assert padded[..|padded| - 1] == seq(zeros - 1, i => '0') + "";
      assert DigitValue('0') == 0;
    }
  }

  lemma PadValue(n: nat, width: nat)
    requires width >= 1 && n < Pow10(width)
    ensures |Pad(n, width)| == width && Value(Pad(n, width)) == n
  {
    DecimalLength(n, width);
    DecimalValue(n);
    if |Decimal(n)| < width {
      ValueOfLeadingZeros(width - |Decimal(n)|, Decimal(n));
    }
  }

  lemma PowersOfTen()
    ensures Pow10(2) == 100 && Pow10(4) == 10_000
  {
    assert Pow10(1) == 10;
    assert Pow10(2) == 100;
    assert Pow10(3) == 1000;
  }

  /** Parsing inverts formatting at the precision of the format, exactly for the years the layout has room for. */
  lemma ParseFormatRoundTrip(t: Time)
    requires ValidTime(t)
    ensures t.year <= 9999 ==> Parse(Format(t)) == Some(t.(nanos := 0))
    ensures t.year > 9999 ==> Parse(Format(t)) == None
  {
    PowersOfTen();
    PadValue(t.month, 2);
    PadValue(t.day, 2);
    PadValue(t.hour, 2);
    PadValue(t.minute, 2);
    PadValue(t.second, 2);
    var s := Format(t);
    if t.year <= 9999 {
      PadValue(t.year, 4);
      assert |s| == 14;
      assert s[..4] == Pad(t.year, 4);
      assert s[4..6] == Pad(t.month, 2);
      assert s[6..8] == Pad(t.day, 2);
      assert s[8..10] == Pad(t.hour, 2);
      assert s[10..12] == Pad(t.minute, 2);
      assert s[12..14] == Pad(t.second, 2);
      assert s[14..] == "";
    } else {
      DecimalLengthExceeds(t.year, 4);
      assert |s| > 14;
      assert IsDigit(s[14]) && !IsDigit('.') && !IsDigit(',');
      assert s[14..][0] == s[14];
      assert ParseFraction(s[14..]) == None;
    }
  }

  /** The layout: year, month, day, hour, minute and second, in this order and with these widths. */
  lemma FormatLayout(t: Time)
    requires ValidTime(t) && t.year <= 9999
    ensures var s := Format(t);
            && |s| == 14 && Value(s[..4]) == t.year && Value(s[4..6]) == t.month && Value(s[6..8]) == t.day
            && Value(s[8..10]) == t.hour && Value(s[10..12]) == t.minute && Value(s[12..14]) == t.second
  {
    PowersOfTen();
    PadValue(t.year, 4);
    PadValue(t.month, 2);
    PadValue(t.day, 2);
    PadValue(t.hour, 2);
    PadValue(t.minute, 2);
    PadValue(t.second, 2);
    var s := Format(t);
    assert s[..4] == Pad(t.year, 4) && s[4..6] == Pad(t.month, 2) && s[6..8] == Pad(t.day, 2);
    assert s[8..10] == Pad(t.hour, 2) && s[10..12] == Pad(t.minute, 2) && s[12..14] == Pad(t.second, 2);
  }

  lemma {:induction false} ValueBelow(s: string)
    requires AllDigits(s)
    ensures Value(s) < Pow10(|s|)
  {
    if s != "" {
      ValueBelow(s[..|s| - 1]);
    }
  }

  /** Digit strings of one length are equal if their values are. */
  lemma {:induction false} ValueInjective(a: string, b: string)
    requires AllDigits(a) && AllDigits(b) && |a| == |b| && Value(a) == Value(b)
    ensures a == b
  {
    if a != "" {
      var n := |a| - 1;
      var va, vb := Value(a[..n]), Value(b[..n]);
      assert va * 10 + DigitValue(a[n]) == vb * 10 + DigitValue(b[n]);
      assert va == vb && DigitValue(a[n]) == DigitValue(b[n]);
      ValueInjective(a[..n], b[..n]);
      assert a == a[..n] + [a[n]] && b == b[..n] + [b[n]];
    }
  }

  lemma PadOfValue(d: string)
    requires AllDigits(d) && d != ""
    ensures Pad(Value(d), |d|) == d
  {
    ValueBelow(d);
    PadValue(Value(d), |d|);
    ValueInjective(Pad(Value(d), |d|), d);
  }

  /** The fields of a timestamp, padded, are the timestamp. */
  lemma PaddedFields(s: string)
    requires |s| == 14 && AllDigits(s)
    ensures AllDigits(s[..4]) && AllDigits(s[4..6]) && AllDigits(s[6..8]) && AllDigits(s[8..10]) && AllDigits(s[10..12])
            && AllDigits(s[12..14])
    ensures Pad(Value(s[..4]), 4) + Pad(Value(s[4..6]), 2) + Pad(Value(s[6..8]), 2) + Pad(Value(s[8..10]), 2)
            + Pad(Value(s[10..12]), 2) + Pad(Value(s[12..14]), 2) == s
  {
    PadOfValue(s[..4]);
    PadOfValue(s[4..6]);
    PadOfValue(s[6..8]);
    PadOfValue(s[8..10]);
    PadOfValue(s[10..12]);
    PadOfValue(s[12..14]);
    assert s == s[..4] + s[4..6] + s[6..8] + s[8..10] + s[10..12] + s[12..14];
  }

  lemma FourDigitYear(s: string)
    requires |s| == 14 && AllDigits(s)
    ensures AllDigits(s[..4]) && Value(s[..4]) <= 9999
  {
    PowersOfTen();
    ValueBelow(s[..4]);
  }

  /** Formatting what was parsed gives the string back. */
  lemma FormatOfParsed(s: string)
    requires |s| == 14 && Parse(s).Some?
    ensures ValidTime(Parse(s).value) && Parse(s).value.year <= 9999 && Format(Parse(s).value) == s
  {
    assert s[..14] == s && s[14..] == "";
    FourDigitYear(s);
    PaddedFields(s);
  }

  /** So exactly the formatted times parse: of the strings of the layout's length, none other does. */
  lemma ParsesIffFormatted(s: string)
    requires |s| == 14
    ensures Parse(s).Some? <==> exists t :: ValidTime(t) && t.year <= 9999 && Format(t) == s
  {
    if Parse(s).Some? {
      FormatOfParsed(s);
    } else if t :| ValidTime(t) && t.year <= 9999 && Format(t) == s {
      ParseFormatRoundTrip(t);
      assert false;
    }
  }

  // ---------------------------------------------------------------------------------------------
  // Backup object names
  // ---------------------------------------------------------------------------------------------

  function ObjectName(name: string, now: Time): string {
    name + "-" + Format(now)
  }

  function ParsePhysicalBackupTime(name: string): Option<Time> {
    if |Split(name, '-')| < 2 then None else Parse(LastPart(name))
  }

  /** The creation time of a scheduled object is read back from its name, whatever hyphens the backup's name has. */
  lemma ObjectNameRoundTrip(name: string, now: Time)
    requires ValidTime(now)
    ensures ParsePhysicalBackupTime(ObjectName(name, now)) == if now.year <= 9999 then Some(now.(nanos := 0)) else None
    ensures |Split(ObjectName(name, now), '-')| >= 2 && BasePart(ObjectName(name, now)) == name
  {
    DigitsHaveNoHyphen(Format(now));
    LastPartOfSuffixed(name, Format(now));
    ParseFormatRoundTrip(now);
  }
}
