/**
 * `hmsToSecondsOnly`: a colon-separated duration such as "1:02:03" to seconds.
 * The groups are `str.split(":")`; each is read with `parseInt(group, 10)`, and
 * the loop pops groups from the right while the multiplier grows by 60.
 */
module Hms {

  predicate IsDigit(c: char) {
    '0' <= c <= '9'
  }

  /** `s.split(":")`: always at least one part, none containing a colon. */
  function Split(s: string): (parts: seq<string>)
    ensures |parts| >= 1
    ensures forall i :: 0 <= i < |parts| ==> ':' !in parts[i]
  {
    if s == [] then [""]
    else
      var rest := Split(s[1..]);
      if s[0] == ':' then [""] + rest
      else [[s[0]] + rest[0]] + rest[1..]
  }

  /** `parts.join(":")`. */
  function Join(parts: seq<string>): string
    requires |parts| >= 1
  {
    if |parts| == 1 then parts[0] else parts[0] + ":" + Join(parts[1..])
  }

  /** Joining the parts of a split gives back the string. */
  lemma {:induction false} JoinSplit(s: string)
    ensures Join(Split(s)) == s
  {
    if s != [] {
      var rest := Split(s[1..]);
      JoinSplit(s[1..]);
      if s[0] == ':' {
        assert ([""] + rest)[1..] == rest;
      } else {
        var parts := [[s[0]] + rest[0]] + rest[1..];
        if |rest| == 1 {
          assert parts == [[s[0]] + rest[0]];
        } else {
          assert |parts| == |rest| && parts[0] == [s[0]] + rest[0] && parts[1..] == rest[1..];
          calc {
            Join(parts);
            parts[0] + ":" + Join(parts[1..]);
            ([s[0]] + rest[0]) + ":" + Join(rest[1..]);
            [s[0]] + (rest[0] + ":" + Join(rest[1..]));
            [s[0]] + Join(rest);
          }
        }
        assert s == [s[0]] + s[1..];
      }
    }
  }

  /** Splitting prepends a colon-free segment to the first part. */
  lemma {:induction false} SplitPrefix(a: string, b: string)
    requires ':' !in a
    ensures Split(a + b) == [a + Split(b)[0]] + Split(b)[1..]
  {
    if a != [] {
      assert (a + b)[0] == a[0] && (a + b)[1..] == a[1..] + b;
      SplitPrefix(a[1..], b);
      assert [a[0]] + (a[1..] + Split(b)[0]) == a + Split(b)[0];
    } else {
      var sb := Split(b);
      assert a + b == b && a + sb[0] == sb[0];
      assert [sb[0]] + sb[1..] == sb;
    }
  }

  /** Splitting the join of colon-free parts gives back the parts. */
  lemma {:induction false} SplitJoin(parts: seq<string>)
    requires |parts| >= 1
    requires forall i :: 0 <= i < |parts| ==> ':' !in parts[i]
    ensures Split(Join(parts)) == parts
  {
    if |parts| == 1 {
      SplitPrefix(parts[0], "");
      assert parts[0] + "" == parts[0];
    } else {
      var j := Join(parts[1..]);
      SplitJoin(parts[1..]);
      assert (":" + j)[0] == ':' && (":" + j)[1..] == j;
      assert Split(":" + j) == [""] + parts[1..];
      assert parts[0] + ":" + j == parts[0] + (":" + j);
      SplitPrefix(parts[0], ":" + j);
      assert parts[0] + "" == parts[0];
    }
  }

  predicate IsDigits(g: string) {
    forall i :: 0 <= i < |g| ==> IsDigit(g[i])
  }

  predicate IsDigitGroup(g: string) {
    |g| > 0 && IsDigits(g)
  }

  /** A well-formed duration: every colon-separated group is a non-empty run of decimal digits. */
  predicate IsHms(str: string) {
    forall i :: 0 <= i < |Split(str)| ==> IsDigitGroup(Split(str)[i])
  }

  /** `parseInt(g, 10)` on a string of decimal digits. */
  function ParseDecimal(g: string): nat
    requires IsDigits(g)
  {
    if g == [] then 0
    else
      var d := g[|g| - 1];
      assert IsDigit(d);
      ParseDecimal(g[..|g| - 1]) * 10 + (d as int - '0' as int)
  }

  function Pow60(k: nat): nat {
    if k == 0 then 1 else 60 * Pow60(k - 1)
  }

  /** The sum of each group's value times 60 to the power of its distance from the rightmost group. */
  function Weighted(groups: seq<string>): nat
    requires forall i :: 0 <= i < |groups| ==> IsDigitGroup(groups[i])
  {
    if groups == [] then 0
    else
      assert IsDigitGroup(groups[0]);
      ParseDecimal(groups[0]) * Pow60(|groups| - 1) + Weighted(groups[1..])
  }

  /** The seconds a well-formed duration stands for. */
  function HmsSeconds(str: string): nat
    requires IsHms(str)
  {
    Weighted(Split(str))
  }

  /** `hmsToSecondsOnly`: the pop-and-accumulate loop. */
  method HmsToSecondsOnly(str: string) returns (s: int)
    requires IsHms(str)
    ensures s == HmsSeconds(str)
  {
    var groups := Split(str);
    var p := groups;
    s := 0;
    var m := 1;
    while |p| > 0
      invariant |p| <= |groups| && p == groups[..|p|]
      invariant m == Pow60(|groups| - |p|)
      invariant s == Weighted(groups[|p|..])
    {
      var last := p[|p| - 1];
      assert last == groups[|p| - 1];
      assert groups[|p| - 1..][1..] == groups[|p|..];
      p := p[..|p| - 1];
      s := s + m * ParseDecimal(last);
      m := m * 60;
    }
    assert groups[0..] == groups;
  }

  /** Reference reading of a duration, left to right: each group shifts the running total by 60. */
  function Horner(groups: seq<string>): nat
    requires forall i :: 0 <= i < |groups| ==> IsDigitGroup(groups[i])
  {
    if groups == [] then 0
    else
      assert IsDigitGroup(groups[|groups| - 1]);
      Horner(groups[..|groups| - 1]) * 60 + ParseDecimal(groups[|groups| - 1])
  }

  /** Appending a group on the right multiplies the weighted sum by 60 and adds that group. */
  lemma {:induction false} WeightedSnoc(groups: seq<string>, g: string)
    requires forall i :: 0 <= i < |groups| ==> IsDigitGroup(groups[i])
    requires IsDigitGroup(g)
    ensures Weighted(groups + [g]) == Weighted(groups) * 60 + ParseDecimal(g)
  {
    var all := groups + [g];
    if groups == [] {
      assert all == [g] && all[1..] == [];
    } else {
      assert all[0] == groups[0] && all[1..] == groups[1..] + [g];
      WeightedSnoc(groups[1..], g);
      var p0, k, w := ParseDecimal(groups[0]), |groups| - 1, Weighted(groups[1..]);
      var pk := Pow60(k);
      assert Pow60(k + 1) == 60 * pk;
      assert Weighted(all) == p0 * (60 * pk) + (w * 60 + ParseDecimal(g));
      assert Weighted(groups) == p0 * pk + w;
      ShiftBySixty(p0, pk, w);
    }
  }

  lemma ShiftBySixty(a: int, b: int, c: int)
    ensures a * (60 * b) + c * 60 == (a * b + c) * 60
  {
  }

  /** The right-to-left loop and the left-to-right reading agree on every duration. */
  lemma {:induction false} WeightedIsHorner(groups: seq<string>)
    requires forall i :: 0 <= i < |groups| ==> IsDigitGroup(groups[i])
    ensures Weighted(groups) == Horner(groups)
  {
    if groups != [] {
      var init := groups[..|groups| - 1];
      WeightedIsHorner(init);
      assert groups == init + [groups[|groups| - 1]];
      WeightedSnoc(init, groups[|groups| - 1]);
    }
  }

  /** A three-group duration reads as hours, minutes and seconds. */
  lemma HoursMinutesSeconds(h: string, m: string, sec: string)
    requires IsDigitGroup(h) && IsDigitGroup(m) && IsDigitGroup(sec)
    ensures IsHms(h + ":" + m + ":" + sec)
    ensures HmsSeconds(h + ":" + m + ":" + sec)
            == ParseDecimal(h) * 3600 + ParseDecimal(m) * 60 + ParseDecimal(sec)
  {
    var groups := [h, m, sec];
    var str := h + ":" + m + ":" + sec;
    NoColonInDigits(h);
    NoColonInDigits(m);
    NoColonInDigits(sec);
    JoinThree(h, m, sec);
    SplitJoin(groups);
    assert Split(str) == groups;
    assert forall i :: 0 <= i < |groups| ==> IsDigitGroup(groups[i]);
    WeightedThree(h, m, sec);
  }

  lemma NoColonInDigits(g: string)
    requires IsDigits(g)
    ensures ':' !in g
  {
  }

  lemma JoinThree(a: string, b: string, c: string)
    ensures Join([a, b, c]) == a + ":" + b + ":" + c
  {
    assert [a, b, c][1..] == [b, c] && [b, c][1..] == [c];
    assert Join([c]) == c;
    assert Join([b, c]) == b + ":" + c;
    assert Join([a, b, c]) == a + ":" + (b + ":" + c);
  }

  lemma WeightedThree(h: string, m: string, sec: string)
    requires IsDigitGroup(h) && IsDigitGroup(m) && IsDigitGroup(sec)
    ensures Weighted([h, m, sec]) == ParseDecimal(h) * 3600 + ParseDecimal(m) * 60 + ParseDecimal(sec)
  {
    assert [h, m, sec][1..] == [m, sec] && [m, sec][1..] == [sec] && [sec][1..] == [];
    assert Pow60(1) == 60 && Pow60(2) == 3600;
    var ph, pm, ps := ParseDecimal(h), ParseDecimal(m), ParseDecimal(sec);
    assert Weighted([sec]) == ps;
    assert Weighted([m, sec]) == pm * 60 + ps;
    assert Weighted([h, m, sec]) == ph * 3600 + (pm * 60 + ps);
  }

  /** A duration without colons is a plain number of seconds. */
  lemma SingleGroupIsSeconds(g: string)
    requires IsDigitGroup(g)
    ensures IsHms(g)
    ensures HmsSeconds(g) == ParseDecimal(g)
  {
    assert ':' !in g;
    assert Join([g]) == g;
    SplitJoin([g]);
    assert Split(g) == [g] && [g][1..] == [];
    assert Weighted([g]) == ParseDecimal(g) * Pow60(0) + Weighted([]);
  }

  /** The worked example: "1:02:03" is 3723 seconds. */
  lemma OneHourTwoMinutesThreeSeconds()
    ensures IsHms("1:02:03") && HmsSeconds("1:02:03") == 3723
  {
    assert ParseDecimal("1") == 1;
    assert "02"[..1] == "0" && ParseDecimal("02") == 2;
    assert "03"[..1] == "0" && ParseDecimal("03") == 3;
    HoursMinutesSeconds("1", "02", "03");
    assert "1" + ":" + "02" + ":" + "03" == "1:02:03";
  }
}
