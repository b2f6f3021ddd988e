/** Device detection: the iOS-family heuristic that forces the fallback
    model, evaluated once when the inference module is loaded. */
module Platform {
  import opened Common

  /** Values of `navigator.platform` that identify an iOS device or simulator. */
  const IOS_PLATFORMS: seq<string> :=
    ["iPad Simulator", "iPhone Simulator", "iPod Simulator", "iPad", "iPhone", "iPod"]

  /** The user-agent marker that, together with touch support, identifies an
      iPad presenting itself as a desktop Mac. */
  const MAC_MARKER: string := "Mac"

  /** `s.includes(sub)`, computed by trying every start position in turn. */
  function Includes(s: string, sub: string): bool
    decreases |s|
  {
    if |sub| > |s| then false
    else if s[..|sub|] == sub then true
    else Includes(s[1..], sub)
  }

  /** The search finds `sub` exactly when `sub` occurs somewhere in `s`. */
  lemma {:induction false} IncludesIsSubstring(s: string, sub: string)
    ensures Includes(s, sub) <==> IsSubstring(sub, s)
    decreases |s|
  {
    if |sub| > |s| {
    } else if s[..|sub|] == sub {
      assert OccursAt(s, sub, 0);
    } else {
      IncludesIsSubstring(s[1..], sub);
      if IsSubstring(sub, s) {
        var k :| OccursAt(s, sub, k);
        assert k != 0;
        assert s[1..][k - 1..k - 1 + |sub|] == s[k..k + |sub|];
        assert OccursAt(s[1..], sub, k - 1);
      }
      if IsSubstring(sub, s[1..]) {
        var k :| OccursAt(s[1..], sub, k);
        assert s[1..][k..k + |sub|] == s[k + 1..k + 1 + |sub|];
        assert OccursAt(s, sub, k + 1);
      }
    }
  }

  /** The iOS heuristic: a known iOS platform string, or a "Mac" user agent on
      a document that supports touch events (`"ontouchend" in document`). */
  function IsIOS(platform: string, userAgent: string, hasTouchEnd: bool): bool
  {
    platform in IOS_PLATFORMS || (Includes(userAgent, MAC_MARKER) && hasTouchEnd)
  }

  /** The heuristic in declarative terms: either the platform is listed, or
      the user agent mentions "Mac" and touch is available. */
  lemma IsIOSCharacterised(platform: string, userAgent: string, hasTouchEnd: bool)
    ensures IsIOS(platform, userAgent, hasTouchEnd)
        <==> platform in IOS_PLATFORMS || (IsSubstring(MAC_MARKER, userAgent) && hasTouchEnd)
  {
    IncludesIsSubstring(userAgent, MAC_MARKER);
  }

  /** A desktop browser without touch support is only flagged by its
      platform string, whatever its user agent says. */
  lemma NoTouchNeedsListedPlatform(platform: string, userAgent: string)
    ensures IsIOS(platform, userAgent, false) <==> platform in IOS_PLATFORMS
  {
  }

  /** An iPad in desktop mode (platform "MacIntel", user agent mentioning
      "Macintosh", touch available) is recognised as iOS. */
  lemma DesktopModeIPadIsIOS()
    ensures IsIOS("MacIntel", "Mozilla/5.0 (Macintosh; Intel Mac OS X 10_15_7)", true)
  {
    var ua := "Mozilla/5.0 (Macintosh; Intel Mac OS X 10_15_7)";
    assert ua[13] == 'M' && ua[14] == 'a' && ua[15] == 'c';
    assert ua[13..16] == MAC_MARKER;
    assert OccursAt(ua, MAC_MARKER, 13);
    IncludesIsSubstring(ua, MAC_MARKER);
  }
}
