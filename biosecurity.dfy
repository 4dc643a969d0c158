/** The visitor entry log (src/components/BiosecurityAccess.jsx): an origin
    that mentions a risky place raises the risk to "Alto", and a high-risk
    entry is recorded only after explicit authorisation. */
module BiosecurityAccess {
  import opened Store

  /** Places whose visitors carry a high biological risk. */
  const RiskyTerms: seq<string> := ["matadero", "feria", "otra granja", "mercado", "hospital"]

  const High: string := "Alto"
  const Low: string := "Bajo"

  /** `toLowerCase` on one character (ASCII letters). */
  function LowerChar(c: char): char
  {
    if 'A' <= c <= 'Z' then (c as int + 32) as char else c
  }

  function Lower(s: string): string
  {
    seq(|s|, i requires 0 <= i < |s| => LowerChar(s[i]))
  }

  /** `includes`: `t` occurs in `s` starting at some position. */
  function Contains(s: string, t: string): bool
    decreases |s|
  {
    if |t| > |s| then false
    else s[..|t|] == t || Contains(s[1..], t)
  }

  /** `checkRisk`. */
  function CheckRisk(origin: string): bool
  {
    exists k :: 0 <= k < |RiskyTerms| && Contains(Lower(origin), RiskyTerms[k])
  }

  /** The entry form and its alert banner. */
  class AccessForm {
    var visitorName: string
    var company: string
    var vehiclePlate: string
    var origin: string
    var riskLevel: string
    var showAlert: bool

    /** Empty fields, low risk, no alert. */
    predicate IsCleared()
      reads this
    {
      visitorName == "" && company == "" && vehiclePlate == "" && origin == "" && riskLevel == Low && !showAlert
    }

    constructor()
      ensures IsCleared()
    {
      visitorName, company, vehiclePlate, origin, riskLevel, showAlert := "", "", "", "", Low, false;
    }

    /** The risk selector, set by hand. */
    method SetRiskLevel(level: string)
      modifies this`riskLevel
      ensures riskLevel == level
    {
      riskLevel := level;
    }

    /** `handleOriginChange`: the origin decides the level and the alert,
        replacing whatever level was chosen by hand. */
    method HandleOriginChange(value: string)
      modifies this`origin, this`riskLevel, this`showAlert
      ensures origin == value
      ensures riskLevel == (if CheckRisk(value) then High else Low)
      ensures showAlert == CheckRisk(value)
    {
      var risky := CheckRisk(value);
      origin := value;
      riskLevel := if risky then High else Low;
      showAlert := risky;
    }

    /** `handleSubmit`. A high-risk entry needs `authorised`; declining
        writes nothing and keeps the form. Otherwise the form is stored as a
        pending log stamped with the entry time, and the form is cleared. */
    method HandleSubmit(db: LocalDb, authorised: bool, newId: Id, now: int) returns (saved: bool)
      requires newId !in db.accessLogs
      modifies this, db`accessLogs
      ensures saved <==> old(riskLevel) != High || authorised
      ensures !saved ==> db.accessLogs == old(db.accessLogs) && unchanged(this)
      ensures saved ==> db.accessLogs == old(db.accessLogs)[newId :=
                Tracked(AccessLog(old(visitorName), old(company), old(vehiclePlate), old(origin), old(riskLevel), now, now, now), Pending)]
      ensures saved ==> IsCleared()
    {
      if riskLevel == High && !authorised {
        return false;
      }
      db.accessLogs := db.accessLogs[newId :=
        Tracked(AccessLog(visitorName, company, vehiclePlate, origin, riskLevel, now, now, now), Pending)];
      visitorName, company, vehiclePlate, origin, riskLevel, showAlert := "", "", "", "", Low, false;
      return true;
    }
  }

  // ----- Properties -----

  /** `t` occurs in `s` at position `i`. */
  ghost predicate OccursAt(s: string, t: string, i: int)
  {
    0 <= i && i + |t| <= |s| && s[i..i + |t|] == t
  }

  /** `Contains` is substring occurrence. */
  lemma {:induction false} ContainsIsOccurrence(s: string, t: string)
    ensures Contains(s, t) <==> exists i :: OccursAt(s, t, i)
    decreases |s|
  {
    if |t| <= |s| {
      if s[..|t|] == t {
        assert OccursAt(s, t, 0);
      } else {
        ContainsIsOccurrence(s[1..], t);
        if Contains(s[1..], t) {
          var i :| OccursAt(s[1..], t, i);
          assert s[1..][i..i + |t|] == s[i + 1..i + 1 + |t|];
          assert OccursAt(s, t, i + 1);
        }
        if exists i :: OccursAt(s, t, i) {
          var i :| OccursAt(s, t, i);
          assert i != 0;
          assert s[1..][i - 1..i - 1 + |t|] == s[i..i + |t|];
          assert OccursAt(s[1..], t, i - 1);
        }
      }
    }
  }

  /** An origin is risky exactly when, ignoring case, one of the risky
      terms occurs in it. */
  lemma CheckRiskIsTermOccurrence(origin: string)
    ensures CheckRisk(origin) <==>
              exists k, i :: 0 <= k < |RiskyTerms| && OccursAt(Lower(origin), RiskyTerms[k], i)
  {
    forall k | 0 <= k < |RiskyTerms| {
      ContainsIsOccurrence(Lower(origin), RiskyTerms[k]);
    }
  }

  /** Lower-casing twice changes nothing more. */
  lemma LowerIsIdempotent(s: string)
    ensures Lower(Lower(s)) == Lower(s)
  {
  }

  /** Case does not matter to the risk. */
  lemma RiskIgnoresCase(origin: string)
    ensures CheckRisk(Lower(origin)) == CheckRisk(origin)
  {
    LowerIsIdempotent(origin);
  }

  /** Typing more text after a risky origin keeps it risky. */
  lemma RiskyStaysRisky(origin: string, more: string)
    requires CheckRisk(origin)
    ensures CheckRisk(origin + more)
  {
    CheckRiskIsTermOccurrence(origin);
    CheckRiskIsTermOccurrence(origin + more);
    var k, i :| 0 <= k < |RiskyTerms| && OccursAt(Lower(origin), RiskyTerms[k], i);
    assert Lower(origin + more)[i..i + |RiskyTerms[k]|] == Lower(origin)[i..i + |RiskyTerms[k]|];
    assert OccursAt(Lower(origin + more), RiskyTerms[k], i);
  }

  /** "Otra Granja" is risky; "Casa" is not. */
  lemma Examples()
    ensures CheckRisk("Otra Granja")
    ensures !CheckRisk("Casa")
  {
    assert Lower("Otra Granja") == "otra granja";
    assert Contains(Lower("Otra Granja"), RiskyTerms[2]);
    assert |Lower("Casa")| == 4;
  }
}
