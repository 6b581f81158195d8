/** app/profile/rules.tsx: the six collapsible rule sections and the tap
    that expands or collapses one of them. Titles and contents are
    translation keys. */
module Rules {

  datatype RuleSection = RuleSection(id: string, icon: string, title: string, content: string, expanded: bool)

  function Section(id: string, icon: string, topic: string, expanded: bool): RuleSection {
    RuleSection(id, icon, "rules.sections." + topic + ".title", "rules.sections." + topic + ".content", expanded)
  }

  /** The initial `sections` state. */
  function InitialSections(): seq<RuleSection> {
    [
      Section("1", "game-controller", "howToPlay", true),
      Section("2", "time", "captureMode", false),
      Section("3", "trophy", "rewards", false),
      Section("4", "shield", "kingStatus", false),
      Section("5", "location", "pois", false),
      Section("6", "people", "community", false)
    ]
  }

  /** toggleSection(id). */
  function ToggleSection(sections: seq<RuleSection>, id: string): seq<RuleSection> {
    seq(|sections|, i requires 0 <= i < |sections| =>
      if sections[i].id == id then sections[i].(expanded := !sections[i].expanded) else sections[i])
  }

  /** Six sections with distinct ids "1" to "6"; only the first starts
      expanded. */
  lemma InitialSectionsShape()
    ensures var s := InitialSections();
      && |s| == 6
      && (forall i :: 0 <= i < |s| ==> s[i].id == [('1' as int + i) as char])
      && (forall i, j :: 0 <= i < j < |s| ==> s[i].id != s[j].id)
      && (forall i :: 0 <= i < |s| ==> (s[i].expanded <==> s[i].id == "1"))
  {
    var s := InitialSections();
    forall i | 0 <= i < |s|
      ensures s[i].id == [('1' as int + i) as char]
    {
    }
  }

  /** A toggle keeps the length, the order and every field but `expanded`,
      flips `expanded` on the sections with the id and leaves the others. */
  lemma ToggleSectionEffect(sections: seq<RuleSection>, id: string)
    ensures var r := ToggleSection(sections, id);
      && |r| == |sections|
      && (forall i :: 0 <= i < |r| ==> r[i].(expanded := sections[i].expanded) == sections[i])
      && (forall i :: 0 <= i < |r| ==> (r[i].expanded != sections[i].expanded <==> sections[i].id == id))
  {
  }

  /** Toggling the same section twice restores the list; toggles of
      different sections commute. */
  lemma ToggleSectionInvolution(sections: seq<RuleSection>, id: string, other: string)
    ensures ToggleSection(ToggleSection(sections, id), id) == sections
    ensures ToggleSection(ToggleSection(sections, id), other) == ToggleSection(ToggleSection(sections, other), id)
  {
    var twice := ToggleSection(ToggleSection(sections, id), id);
    assert forall i :: 0 <= i < |sections| ==> twice[i] == sections[i];
  }

  /** Tapping "2" on the initial screen expands it and keeps "1" open. */
  lemma ToggleSectionExample()
    ensures var r := ToggleSection(InitialSections(), "2");
      r[0].expanded && r[1].expanded && !r[2].expanded && !r[3].expanded && !r[4].expanded && !r[5].expanded
  {
    InitialSectionsShape();
  }
}
