/** One-time pairing codes: sixteen characters of an alphabet without look-alikes, shown in groups of four. */
module PairingCode {
  import opened Outcomes

  const ALPHABET: string := "0123456789ABCDEFGHJKMNPQRSTVWXYZ"
  const LENGTH: nat := 16

  predicate Separates(c: char) {
    c == '-' || c == ' '
  }

  /** The characters that count, if all of them are in the alphabet. */
  function Compact(text: string): Option<string> {
    if text == "" then Some("")
    else
      var n := |text| - 1;
      match Compact(text[..n])
      case None => None
      case Some(before) =>
        if Separates(text[n]) then Some(before)
        else if text[n] in ALPHABET then Some(before + [text[n]])
        else None
  }

  function Grouped(raw: string): string
    requires |raw| == LENGTH
  {
    raw[0..4] + ['-'] + raw[4..8] + ['-'] + raw[8..12] + ['-'] + raw[12..16]
  }

  /** The code that a trimmed, upper-case text stands for. */
  function Normalized(text: string): Option<string> {
    match Compact(text)
    case None => None
    case Some(raw) => if |raw| == LENGTH then Some(Grouped(raw)) else None
  }

  method NormalizeOnboardingCode(text: string) returns (r: Option<string>)
    ensures r == Normalized(text)
    ensures r.Some? ==> |r.value| == 19 && r.value[4] == r.value[9] == r.value[14] == '-'
  {
    var compact := "";
    for i := 0 to |text|
      invariant Compact(text[..i]) == Some(compact)
    {
      assert text[..i + 1][..i] == text[..i];
      if Separates(text[i]) {
        continue;
      }
      if text[i] !in ALPHABET {
        CompactStaysNone(text, i + 1, |text|);
        assert text[..|text|] == text;
        return None;
      }
      compact := compact + [text[i]];
    }
    assert text[..|text|] == text;
    if |compact| != LENGTH {
      return None;
    }
    r := Some(compact[0..4] + ['-'] + compact[4..8] + ['-'] + compact[8..12] + ['-'] + compact[12..16]);
  }

  lemma {:induction false} CompactStaysNone(text: string, m: nat, n: nat)
    requires m <= n <= |text| && Compact(text[..m]).None?
    ensures Compact(text[..n]).None?
  {
    if m < n {
      CompactStaysNone(text, m, n - 1);
      assert text[..n][..n - 1] == text[..n - 1];
    }
  }

  lemma {:induction false} CompactOfSum(a: string, b: string)
    requires Compact(a).Some? && Compact(b).Some?
    ensures Compact(a + b) == Some(Compact(a).value + Compact(b).value)
  {
    if b == "" {
      assert a + b == a && Compact(a).value + "" == Compact(a).value;
    } else {
      var n := |b| - 1;
      CompactOfSum(a, b[..n]);
      assert (a + b)[..|a + b| - 1] == a + b[..n] && (a + b)[|a + b| - 1] == b[n];
      if !Separates(b[n]) {
        var x, y := Compact(a).value, Compact(b[..n]).value;
        assert x + y + [b[n]] == x + (y + [b[n]]);
      }
    }
  }

  lemma {:induction false} CompactOfRaw(raw: string)
    requires forall i :: 0 <= i < |raw| ==> raw[i] in ALPHABET
    ensures Compact(raw) == Some(raw)
  {
    if raw != "" {
      CompactOfRaw(raw[..|raw| - 1]);
      assert raw[..|raw| - 1] + [raw[|raw| - 1]] == raw;
      assert !Separates(raw[|raw| - 1]);
    }
  }

  lemma {:induction false} CompactIsRaw(text: string)
    requires Compact(text).Some?
    ensures forall i :: 0 <= i < |Compact(text).value| ==> Compact(text).value[i] in ALPHABET
  {
    if text != "" {
      CompactIsRaw(text[..|text| - 1]);
    }
  }

  lemma CompactOfDash(a: string)
    requires Compact(a).Some?
    ensures Compact(a + ['-']) == Compact(a)
  {
    assert (a + ['-'])[..|a|] == a;
  }

  lemma OneMoreGroup(a: string, x: string, b: string)
    requires Compact(a) == Some(x) && forall i :: 0 <= i < |b| ==> b[i] in ALPHABET
    ensures Compact(a + ['-'] + b) == Some(x + b)
  {
    CompactOfDash(a);
    CompactOfRaw(b);
    CompactOfSum(a + ['-'], b);
  }

  lemma CompactOfGrouped(raw: string)
    requires |raw| == LENGTH && forall i :: 0 <= i < |raw| ==> raw[i] in ALPHABET
    ensures Compact(Grouped(raw)) == Some(raw)
  {
    var a, b, c, d := raw[0..4], raw[4..8], raw[8..12], raw[12..16];
    CompactOfRaw(a);
    OneMoreGroup(a, a, b);
    OneMoreGroup(a + ['-'] + b, a + b, c);
    OneMoreGroup(a + ['-'] + b + ['-'] + c, a + b + c, d);
    FourGroups(raw);
  }

  lemma FourGroups(raw: string)
    requires |raw| == LENGTH
    ensures raw[0..4] + raw[4..8] + raw[8..12] + raw[12..16] == raw
  {
  }

  /** A normalised code is a code, and is its own normal form. */
  lemma NormalizedIsStable(text: string)
    requires Normalized(text).Some?
    ensures Normalized(Normalized(text).value) == Normalized(text)
  {
    CompactIsRaw(text);
    CompactOfGrouped(Compact(text).value);
  }
}
