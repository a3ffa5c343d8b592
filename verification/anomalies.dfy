/** The incident log: the anomaly strings of a snapshot, each shown as a
    critical error or a warning, or a single "all systems nominal" notice. */
module Anomalies {
  import opened Payload

  /** The word that makes an anomaly critical, matched after upper-casing. */
  const Token: string := "CRITICAL"

  datatype Severity = Critical | Warning

  /** One line of the incident log: the anomaly text and how it is shown. */
  datatype Alert = Alert(text: string, severity: Severity)

  /** What the incident-log box shows. */
  datatype Panel = Nominal | Alerts(entries: seq<Alert>)

  predicate IsLower(c: char)
  {
    'a' <= c <= 'z'
  }

  /** Upper-cases one character (ASCII letters only). */
  function UpperChar(c: char): (u: char)
    ensures IsLower(c) ==> u as int == c as int - 32
    ensures !IsLower(c) ==> u == c
  {
    if IsLower(c) then (c as int - 32) as char else c
  }

  /** `str.upper()` restricted to ASCII: every letter a-z is replaced by its
      capital, everything else is kept. */
  function Upper(s: string): (u: string)
    ensures |u| == |s|
    ensures forall i :: 0 <= i < |s| ==> u[i] == UpperChar(s[i])
  {
    seq(|s|, i requires 0 <= i < |s| => UpperChar(s[i]))
  }

  /** `t` occurs in `s` starting at position `i`. */
  predicate OccursAt(s: string, t: string, i: int)
  {
    0 <= i && i + |t| <= |s| && s[i..i + |t|] == t
  }

  /** Moving the scan one character on loses no occurrence when `t` does
      not start at position 0. */
  lemma ShiftOccurs(s: string, t: string)
    requires |t| <= |s| && s[..|t|] != t
    ensures (exists i :: OccursAt(s, t, i)) <==> (exists i :: OccursAt(s[1..], t, i))
  {
    if exists i :: OccursAt(s[1..], t, i) {
      var i :| OccursAt(s[1..], t, i);
      assert s[i + 1..i + 1 + |t|] == s[1..][i..i + |t|];
      assert OccursAt(s, t, i + 1);
    }
    if exists i :: OccursAt(s, t, i) {
      var i :| OccursAt(s, t, i);
      assert i != 0;
      assert s[1..][i - 1..i - 1 + |t|] == s[i..i + |t|];
      assert OccursAt(s[1..], t, i - 1);
    }
  }

  /** Python's substring test `t in s`, scanning `s` from the left: it holds
      exactly when `t` occurs somewhere in `s`. */
  function Contains(s: string, t: string): (r: bool)
    ensures r <==> exists i :: OccursAt(s, t, i)
    decreases |s|
  {
    if |s| < |t| then false
    else if s[..|t|] == t then assert OccursAt(s, t, 0); true
    else ShiftOccurs(s, t); Contains(s[1..], t)
  }

  /** Character `c` spells capital letter `L` in either case. */
  predicate SameLetterAnyCase(c: char, L: char)
  {
    c == L || c as int == L as int + 32
  }

  /** `Token` is spelled at position `i` of `s`, in any mix of cases. */
  ghost predicate TokenAt(s: string, i: int)
  {
    0 <= i && i + |Token| <= |s|
    && forall j :: 0 <= j < |Token| ==> SameLetterAnyCase(s[i + j], Token[j])
  }

  /** Upper-casing turns `c` into capital letter `L` exactly when `c` is `L`
      in either case. */
  lemma UpperMatchesLetter(c: char, L: char)
    requires 'A' <= L <= 'Z'
    ensures UpperChar(c) == L <==> SameLetterAnyCase(c, L)
  {
  }

  lemma UpperOccursIffTokenAt(s: string, i: int)
    ensures OccursAt(Upper(s), Token, i) <==> TokenAt(s, i)
  {
    if 0 <= i && i + |Token| <= |s| {
      var u := Upper(s);
      forall j | 0 <= j < |Token|
        ensures u[i + j] == Token[j] <==> SameLetterAnyCase(s[i + j], Token[j])
      {
        UpperMatchesLetter(s[i + j], Token[j]);
      }
      if OccursAt(u, Token, i) {
        forall j | 0 <= j < |Token|
          ensures SameLetterAnyCase(s[i + j], Token[j])
        {
          assert u[i..i + |Token|][j] == u[i + j];
        }
      }
      if TokenAt(s, i) {
        assert u[i..i + |Token|] == Token;
      }
    }
  }

  /** "CRITICAL" occurs in the upper-cased text exactly when the text spells
      it somewhere in any mix of upper and lower case. */
  lemma UpperContainsIffTokenAt(alert: string)
    ensures Contains(Upper(alert), Token) <==> exists i :: TokenAt(alert, i)
  {
    forall i
      ensures OccursAt(Upper(alert), Token, i) <==> TokenAt(alert, i)
    {
      UpperOccursIffTokenAt(alert, i);
    }
  }

  /** The severity rule of the incident log: an anomaly is critical exactly
      when "CRITICAL" appears in it in any mix of upper and lower case, and a
      warning otherwise. */
  function SeverityOf(alert: string): (sev: Severity)
    ensures sev == Critical <==> exists i :: TokenAt(alert, i)
    ensures sev == Warning <==> forall i :: !TokenAt(alert, i)
  {
    UpperContainsIffTokenAt(alert);
    if Contains(Upper(alert), Token) then Critical else Warning
  }

  /** Labels each anomaly, keeping their order. */
  function Classify(anomalies: seq<string>): (r: seq<Alert>)
    ensures |r| == |anomalies|
    ensures forall i :: 0 <= i < |r| ==> r[i].text == anomalies[i]
    ensures forall i :: 0 <= i < |r| ==> r[i].severity == SeverityOf(anomalies[i])
  {
    seq(|anomalies|, i requires 0 <= i < |anomalies| => Alert(anomalies[i], SeverityOf(anomalies[i])))
  }

  /** Classification works line by line: classifying two lists one after the
      other gives the classification of their concatenation. */
  lemma ClassifyConcat(a: seq<string>, b: seq<string>)
    ensures Classify(a + b) == Classify(a) + Classify(b)
  {
  }

  /** The incident-log box for the `anomalies` key of a snapshot: a missing
      key reads as the empty list, and JSON `null` or an empty list is falsy,
      so all three show the nominal notice; anything else is listed. */
  function IncidentLog(anomalies: Field<seq<string>>): (p: Panel)
    ensures p == Nominal <==> anomalies.Absent? || anomalies.Null? || anomalies.value == []
    ensures p.Alerts? ==> anomalies.Given? && p.entries == Classify(anomalies.value)
  {
    match Get(anomalies, [])
    case None => Nominal
    case Some(list) => if |list| == 0 then Nominal else Alerts(Classify(list))
  }
}
