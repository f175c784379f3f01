/**
  The device-keyed control-plane URLs. Every request goes to
  `https://display.gulas.ch/control/<MAC>/<endpoint>`, where the MAC address is
  passed through Python's `str.capitalize` (first character upper case, the rest
  lower case; modelled on ASCII letters).
 */
module Endpoints {

  predicate IsUpper(c: char) { 'A' <= c <= 'Z' }
  predicate IsLower(c: char) { 'a' <= c <= 'z' }

  function ToUpper(c: char): (u: char)
    ensures !IsLower(u)
  {
    if IsLower(c) then (c as int - 32) as char else c
  }

  function ToLower(c: char): (l: char)
    ensures !IsUpper(l)
  {
    if IsUpper(c) then (c as int + 32) as char else c
  }

  function LowerAll(s: string): string {
    seq(|s|, i requires 0 <= i < |s| => ToLower(s[i]))
  }

  /** Python's `s.capitalize()` on ASCII text. */
  function Capitalize(s: string): (r: string)
    ensures |r| == |s|
    ensures |s| > 0 ==> !IsLower(r[0])
  {
    if s == [] then [] else [ToUpper(s[0])] + LowerAll(s[1..])
  }

  /** Two strings that differ only in the case of ASCII letters. */
  predicate EqualIgnoringCase(a: string, b: string) {
    |a| == |b| && forall i :: 0 <= i < |a| ==> ToLower(a[i]) == ToLower(b[i])
  }

  /** Capitalizing keeps the length and the letters, and leaves only the first character in upper case. */
  lemma CapitalizeShape(s: string)
    ensures |Capitalize(s)| == |s|
    ensures EqualIgnoringCase(Capitalize(s), s)
    ensures |s| > 0 ==> !IsLower(Capitalize(s)[0])
    ensures forall i :: 1 <= i < |s| ==> !IsUpper(Capitalize(s)[i])
  {
    if s != [] {
      var c := Capitalize(s);
      assert ToLower(c[0]) == ToLower(s[0]);
      forall i | 1 <= i < |s| ensures ToLower(c[i]) == ToLower(s[i]) {
        assert c[i] == ToLower(s[i]);
      }
    }
  }

  /** Upper- and lower-casing identify the same characters. */
  lemma CaseFoldsAgree(x: char, y: char)
    ensures ToUpper(x) == ToUpper(y) <==> ToLower(x) == ToLower(y)
  {
  }

  /** The device identifier does not depend on how the MAC address was cased, and nothing else is identified. */
  lemma {:induction false} CapitalizeIgnoresCase(a: string, b: string)
    ensures Capitalize(a) == Capitalize(b) <==> EqualIgnoringCase(a, b)
  {
    if Capitalize(a) == Capitalize(b) {
      CapitalizeShape(a);
      CapitalizeShape(b);
      if a != [] {
        var ca := Capitalize(a);
        CaseFoldsAgree(a[0], b[0]);
        assert ca[0] == ToUpper(a[0]) && ca[0] == ToUpper(b[0]);
        forall i | 0 <= i < |a| ensures ToLower(a[i]) == ToLower(b[i]) {
          if i > 0 {
            assert ca[i] == ToLower(a[i]) && ca[i] == ToLower(b[i]);
          }
        }
      }
    }
    if EqualIgnoringCase(a, b) && a != [] {
      CaseFoldsAgree(a[0], b[0]);
      assert LowerAll(a[1..]) == LowerAll(b[1..]) by {
        forall i | 0 <= i < |a| - 1 ensures ToLower(a[1..][i]) == ToLower(b[1..][i]) {
          assert a[1..][i] == a[i + 1] && b[1..][i] == b[i + 1];
        }
      }
    }
  }

  /** Capitalizing an identifier a second time changes nothing. */
  lemma CapitalizeIdempotent(s: string)
    ensures Capitalize(Capitalize(s)) == Capitalize(s)
  {
    CapitalizeShape(s);
    CapitalizeIgnoresCase(Capitalize(s), s);
  }

  /** Only the first character ends up in upper case, whatever the case of the input. */
  lemma CapitalizeExample()
    ensures Capitalize("b8:EB") == "B8:eb"
  {
    var rest := LowerAll("8:EB");
    assert rest[0] == '8' && rest[1] == ':' && rest[2] == 'e' && rest[3] == 'b';
    assert rest == "8:eb";
  }

  /** The three resources the client addresses under its device path. */
  datatype Endpoint = Register | Displays | Config

  function EndpointName(e: Endpoint): string {
    match e
    case Register => "register"
    case Displays => "displays"
    case Config => "config"
  }

  const ControlBase: string := "https://display.gulas.ch/control/"

  /** The URL `register`, `update_displays` and `pull_config` talk to, for the device with address `mac`. */
  function ControlUrl(mac: string, e: Endpoint): (url: string)
    ensures |url| > |ControlBase| && url[..|ControlBase|] == ControlBase
    ensures |url| > |EndpointName(e)| && url[|url| - |EndpointName(e)| - 1..] == "/" + EndpointName(e)
  {
    ControlBase + DevicePath(mac, e)
  }

  /** The part of a control URL after the fixed base: `<Capitalized MAC>/<endpoint>`. */
  function DevicePath(mac: string, e: Endpoint): string {
    Capitalize(mac) + "/" + EndpointName(e)
  }

  /** The endpoint names end in distinct letters. */
  lemma EndpointNamesEndApart(e1: Endpoint, e2: Endpoint)
    requires EndpointName(e1)[|EndpointName(e1)| - 1] == EndpointName(e2)[|EndpointName(e2)| - 1]
    ensures e1 == e2
  {
  }

  /**
    Two control URLs coincide exactly when they name the same endpoint for the
    same capitalized device identifier: the endpoint is recoverable from the URL
    and each device has its own namespace.
   */
  lemma ControlUrlInjective(m1: string, e1: Endpoint, m2: string, e2: Endpoint)
    ensures ControlUrl(m1, e1) == ControlUrl(m2, e2) <==> e1 == e2 && Capitalize(m1) == Capitalize(m2)
  {
    if ControlUrl(m1, e1) == ControlUrl(m2, e2) {
      LastLetter(m1, e1);
      LastLetter(m2, e2);
      EndpointNamesEndApart(e1, e2);
      PathAfterBase(m1, e1);
      PathAfterBase(m2, e2);
      assert |Capitalize(m1)| == |Capitalize(m2)|;
    }
  }

  /** A control URL ends in the last letter of its endpoint's name. */
  lemma LastLetter(mac: string, e: Endpoint)
    ensures var url, name := ControlUrl(mac, e), EndpointName(e);
      url[|url| - 1] == name[|name| - 1]
  {
    var url, name := ControlUrl(mac, e), EndpointName(e);
    assert url[|url| - 1] == ("/" + name)[|name|];
  }

  /** What follows the fixed base of a control URL is its device path, which starts with the device identifier. */
  lemma PathAfterBase(mac: string, e: Endpoint)
    ensures ControlUrl(mac, e)[|ControlBase|..] == DevicePath(mac, e)
    ensures DevicePath(mac, e)[..|Capitalize(mac)|] == Capitalize(mac)
  {
    assert DevicePath(mac, e)[..|Capitalize(mac)|] == Capitalize(mac);
  }
}
