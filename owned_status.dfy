/**
 * The row border and tooltip that show a track's ownership.
 */
module OwnedStatus {
  import opened Wrappers
  import opened Text

  datatype Style = Style(borderClass: string, tooltip: string)

  const OwnedBorder := "border-l-4 border-emerald-500"
  const ToBuyBorder := "border-l-4 border-slate-600"
  const ToBuyTooltip := "⬛ To Buy: Not found in library"

  /** The owned tooltip for a match reason. */
  function OwnedTooltip(reason: Option<string>): string {
    if reason == Some("isrc") then "✅ Owned: Matched by ISRC"
    else if reason == Some("exact") then "✅ Owned: Matched by Title + Artist"
    else if reason == Some("album") then "✅ Owned: Matched by Title + Album"
    else if reason == Some("fuzzy") then "🟠 Maybe: Fuzzy match (low confidence)"
    else "✅ Owned"
  }

  /** `getOwnedStatusStyle`; None stands for both `null` and `undefined`. */
  function GetOwnedStatusStyle(owned: Option<bool>, ownedReason: Option<string>): Style {
    if owned == Some(true) then Style(OwnedBorder, OwnedTooltip(ownedReason))
    else Style(ToBuyBorder, ToBuyTooltip)
  }

  /** The border is emerald exactly for `owned === true`; every border class starts with `border-l-4`. */
  lemma BorderRule(owned: Option<bool>, reason: Option<string>)
    ensures GetOwnedStatusStyle(owned, reason).borderClass == OwnedBorder <==> owned == Some(true)
    ensures StartsWith(GetOwnedStatusStyle(owned, reason).borderClass, "border-l-4")
  {
    assert OwnedBorder[..10] == "border-l-4";
    assert ToBuyBorder[..10] == "border-l-4";
  }

  /** Anything but `owned === true` is To Buy, whatever the reason. */
  lemma ToBuyRule(owned: Option<bool>, reason: Option<string>)
    requires owned != Some(true)
    ensures GetOwnedStatusStyle(owned, reason) == Style(ToBuyBorder, ToBuyTooltip)
  {
  }

  /** Owned tracks get a reason-specific tooltip, and the generic one for any other reason. */
  lemma OwnedTooltipRule(reason: Option<string>)
    ensures var tip := GetOwnedStatusStyle(Some(true), reason).tooltip;
      && (reason == Some("isrc") <==> tip == "✅ Owned: Matched by ISRC")
      && (reason == Some("exact") <==> tip == "✅ Owned: Matched by Title + Artist")
      && (reason == Some("album") <==> tip == "✅ Owned: Matched by Title + Album")
      && (reason == Some("fuzzy") <==> tip == "🟠 Maybe: Fuzzy match (low confidence)")
      && (reason !in {Some("isrc"), Some("exact"), Some("album"), Some("fuzzy")} <==> tip == "✅ Owned")
  {
  }
}
