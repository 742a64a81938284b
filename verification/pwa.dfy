/** Platform detection from the user-agent string and the install-prompt
    state of the app as a progressive web app (src/lib/pwa.ts). The user
    agent, the display-mode match and `navigator.standalone` are inputs. */
module Pwa {
  import opened Wrappers
  import opened Text
  import opened JsonValues

  /** `isPwaInstalled()`: the standalone display mode matches, or iOS
      reports `navigator.standalone === true`. */
  function IsPwaInstalled(displayModeStandalone: bool, navigatorStandalone: Json): (r: bool)
    ensures r <==> displayModeStandalone || navigatorStandalone == JBool(true)
  {
    if displayModeStandalone then true
    else if navigatorStandalone == JBool(true) then true
    else false
  }

  /** The iOS flag is compared strictly: a truthy value that is not `true`
      does not count. */
  lemma StandaloneIsStrict(v: Json)
    requires Truthy(v) && v != JBool(true)
    ensures !IsPwaInstalled(false, v)
  {
  }

  // ---------------------------------------------------------------------
  // Case mappings

  function AsciiLowerChar(c: char): char {
    if 'A' <= c <= 'Z' then (c as int + 32) as char else c
  }

  function AsciiUpperChar(c: char): char {
    if 'a' <= c <= 'z' then (c as int - 32) as char else c
  }

  function AsciiLower(s: string): (r: string)
    ensures |r| == |s|
    ensures forall i :: 0 <= i < |s| ==> r[i] == AsciiLowerChar(s[i])
  {
    seq(|s|, i requires 0 <= i < |s| => AsciiLowerChar(s[i]))
  }

  function AsciiUpper(s: string): (r: string)
    ensures |r| == |s|
    ensures forall i :: 0 <= i < |s| ==> r[i] == AsciiUpperChar(s[i])
  {
    seq(|s|, i requires 0 <= i < |s| => AsciiUpperChar(s[i]))
  }

  /** `String.prototype.toLowerCase` on one character, as far as ASCII
      letters in the result go: besides A–Z only U+0130 (capital I with dot,
      to "i" and a combining dot) and U+212A (Kelvin sign, to "k") lower to
      text containing an ASCII letter; every other character is kept, which
      differs from JavaScript only in non-ASCII characters. */
  function JsLowerChar(c: char): string {
    if 'A' <= c <= 'Z' then [AsciiLowerChar(c)]
    else if c == '\U{130}' then "i\U{307}"
    else if c == '\U{212A}' then "k"
    else [c]
  }

  function JsLower(s: string): string
    decreases |s|
  {
    if |s| == 0 then "" else JsLowerChar(s[0]) + JsLower(s[1..])
  }

  lemma {:induction false} JsLowerAppend(a: string, b: string)
    ensures JsLower(a + b) == JsLower(a) + JsLower(b)
    decreases |a|
  {
    if |a| == 0 {
      assert a + b == b;
    } else {
      assert (a + b)[0] == a[0];
      assert (a + b)[1..] == a[1..] + b;
      JsLowerAppend(a[1..], b);
    }
  }

  /** Upper-casing ASCII letters first makes no difference to the lower-case
      form. */
  lemma {:induction false} JsLowerIgnoresAsciiCase(s: string)
    ensures JsLower(AsciiUpper(s)) == JsLower(s)
    decreases |s|
  {
    if |s| > 0 {
      assert AsciiUpper(s)[1..] == AsciiUpper(s[1..]);
      JsLowerIgnoresAsciiCase(s[1..]);
    }
  }

  lemma AsciiLowerIgnoresAsciiCase(s: string)
    ensures AsciiLower(AsciiUpper(s)) == AsciiLower(s)
  {
  }

  // ---------------------------------------------------------------------
  // User-agent tests

  /** `/iphone|ipad|ipod/.test(userAgent.toLowerCase())`. */
  predicate IsIos(userAgent: string) {
    var ua := JsLower(userAgent);
    Contains(ua, "iphone") || Contains(ua, "ipad") || Contains(ua, "ipod")
  }

  /** `isIos() && /safari/ && !/crios|fxios/` on the lower-cased agent. */
  function IsIosSafari(userAgent: string): (r: bool)
    ensures r ==> IsIos(userAgent)
    ensures Contains(JsLower(userAgent), "crios") || Contains(JsLower(userAgent), "fxios") ==> !r
  {
    var ua := JsLower(userAgent);
    IsIos(userAgent) && Contains(ua, "safari") && !(Contains(ua, "crios") || Contains(ua, "fxios"))
  }

  /** `/android/i.test(userAgent)`. Without the `u` flag a case-insensitive
      match only folds characters whose upper-case form is one character,
      and never folds a non-ASCII character onto an ASCII one, so on this
      ASCII pattern it is exactly an ASCII case-insensitive search. */
  predicate IsAndroid(userAgent: string) {
    Contains(AsciiLower(userAgent), "android")
  }

  /** The tests do not depend on the case of the user agent's ASCII
      letters. */
  lemma UserAgentTestsIgnoreCase(userAgent: string)
    ensures IsIos(AsciiUpper(userAgent)) == IsIos(userAgent)
    ensures IsIosSafari(AsciiUpper(userAgent)) == IsIosSafari(userAgent)
    ensures IsAndroid(AsciiUpper(userAgent)) == IsAndroid(userAgent)
  {
    JsLowerIgnoresAsciiCase(userAgent);
    AsciiLowerIgnoresAsciiCase(userAgent);
  }

  lemma ContainsAt(s: string, p: string, i: nat)
    requires i + |p| <= |s| && s[i..i + |p|] == p
    ensures Contains(s, p)
  {
    assert OccursAt(s, p, i);
  }

  /** Any agent naming an "iPhone" is iOS. */
  lemma IphoneIsIos(before: string, after: string)
    ensures IsIos(before + "iPhone" + after)
  {
    JsLowerAppend(before + "iPhone", after);
    JsLowerAppend(before, "iPhone");
    assert JsLower("iPhone") == "iphone" by {
      assert JsLower("iPhone") == JsLowerChar('i') + JsLower("Phone");
      assert JsLower("Phone") == JsLowerChar('P') + JsLower("hone");
      assert JsLower("hone") == "hone" by {
        assert JsLower("hone") == "h" + JsLower("one");
        assert JsLower("one") == "o" + JsLower("ne");
        assert JsLower("ne") == "n" + JsLower("e");
        assert JsLower("e") == "e" + JsLower("");
      }
    }
    var s := JsLower(before) + "iphone" + JsLower(after);
    assert s[|JsLower(before)|..|JsLower(before)| + 6] == "iphone";
    ContainsAt(s, "iphone", |JsLower(before)|);
  }

  /** Any agent naming "Safari" contains "safari" once lower-cased. */
  lemma SafariNamed(before: string, after: string)
    ensures Contains(JsLower(before + "Safari" + after), "safari")
  {
    JsLowerAppend(before + "Safari", after);
    JsLowerAppend(before, "Safari");
    assert JsLower("Safari") == "safari" by {
      assert JsLower("Safari") == JsLowerChar('S') + JsLower("afari");
      assert JsLower("afari") == "afari" by {
        assert JsLower("afari") == "a" + JsLower("fari");
        assert JsLower("fari") == "f" + JsLower("ari");
        assert JsLower("ari") == "a" + JsLower("ri");
        assert JsLower("ri") == "r" + JsLower("i");
        assert JsLower("i") == "i" + JsLower("");
      }
    }
    var s := JsLower(before) + "safari" + JsLower(after);
    assert s[|JsLower(before)|..|JsLower(before)| + 6] == "safari";
    ContainsAt(s, "safari", |JsLower(before)|);
  }

  /** An iPhone agent that names Safari and neither Chrome for iOS (CriOS)
      nor Firefox for iOS (FxiOS) is iOS Safari. */
  lemma IphoneSafariDetected(before: string, mid: string, after: string)
    requires !Contains(JsLower(before + "iPhone" + mid + "Safari" + after), "crios")
    requires !Contains(JsLower(before + "iPhone" + mid + "Safari" + after), "fxios")
    ensures IsIosSafari(before + "iPhone" + mid + "Safari" + after)
  {
    var ua := before + "iPhone" + mid + "Safari" + after;
    assert ua == before + "iPhone" + (mid + "Safari" + after);
    IphoneIsIos(before, mid + "Safari" + after);
    SafariNamed(before + "iPhone" + mid, after);
  }

  /** Any agent naming "Android", in any ASCII case, is Android. */
  lemma AndroidInAnyCase(before: string, after: string)
    ensures IsAndroid(before + "ANDROID" + after)
    ensures IsAndroid(before + "Android" + after)
  {
    var n := |before|;
    var s1 := AsciiLower(before + "ANDROID" + after);
    var s2 := AsciiLower(before + "Android" + after);
    assert s1[n..n + 7] == "android";
    assert s2[n..n + 7] == "android";
    ContainsAt(s1, "android", n);
    ContainsAt(s2, "android", n);
  }

  // ---------------------------------------------------------------------
  // Install prompt

  /** A deferred `beforeinstallprompt` event; `outcome` is what the user
      will choose when it is shown ('accepted' or 'dismissed'). */
  datatype DeferredPrompt = DeferredPrompt(outcome: string)

  datatype InstallState = InstallState(deferred: Option<DeferredPrompt>, isInstalled: bool)

  datatype InstallEvent = BeforeInstallPrompt(prompt: DeferredPrompt) | AppInstalled

  /** The state after mounting: no prompt yet, installed as detected. */
  function InitialInstallState(installedNow: bool): InstallState {
    InstallState(None, installedNow)
  }

  /** `canInstall: !!deferredPrompt`. */
  predicate CanInstall(st: InstallState) {
    st.deferred.Some?
  }

  /** The two window event handlers. */
  function OnInstallEvent(st: InstallState, ev: InstallEvent): (t: InstallState)
    ensures ev.BeforeInstallPrompt? ==> t == st.(deferred := Some(ev.prompt))
    ensures ev.AppInstalled? ==> t == InstallState(None, true)
  {
    match ev
    case BeforeInstallPrompt(p) => st.(deferred := Some(p))
    case AppInstalled => InstallState(None, true)
  }

  /** `promptInstall()`: without a deferred prompt `false`; otherwise show
      it, drop it, and report whether the user accepted. */
  function PromptInstall(st: InstallState): (r: (bool, InstallState))
    ensures st.deferred.None? ==> r == (false, st)
    ensures st.deferred.Some? ==> r == (st.deferred.value.outcome == "accepted", st.(deferred := None))
    ensures !CanInstall(r.1) && r.1.isInstalled == st.isInstalled
  {
    match st.deferred
    case None => (false, st)
    case Some(p) => (p.outcome == "accepted", st.(deferred := None))
  }

  /** A prompt can be used once: asking again reports `false`. */
  lemma PromptUsedOnce(st: InstallState)
    ensures var (_, t) := PromptInstall(st);
      PromptInstall(t) == (false, t)
  {
  }

  /** Once installed, nothing can be installed until a new prompt event. */
  lemma InstalledCannotInstall(st: InstallState)
    ensures !CanInstall(OnInstallEvent(st, AppInstalled))
    ensures PromptInstall(OnInstallEvent(st, AppInstalled)).0 == false
  {
  }

  /** The answer is `true` exactly for an accepted prompt that arrived
      before. */
  lemma AcceptedPromptInstalls(st: InstallState, outcome: string)
    ensures PromptInstall(OnInstallEvent(st, BeforeInstallPrompt(DeferredPrompt(outcome)))).0
        <==> outcome == "accepted"
  {
  }
}
