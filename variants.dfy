/** How the two scorers' position classifiers relate. The advanced one adds
    "SS" to the forwards, "SW" to the defenders, "CDM" and "CAM" to the
    midfielders (which "DM" and "AM" already catch), and tries defenders
    before midfielders. */
module Variants {
  import opened Base
  import opened Text
  import opened Positions
  import PlayerScorer
  import AdvancedScorer

  /** Adding one keyword to a set adds exactly that keyword's test. */
  lemma ExtendedSet(u: string, small: seq<string>, extra: string)
    ensures ContainsAny(u, small + [extra]) <==> ContainsAny(u, small) || Contains(u, extra)
  {
    var big := small + [extra];
    ContainsAnyAt(u, small);
    ContainsAnyAt(u, big);
    if ContainsAny(u, big) {
      var m :| 0 <= m < |big| && Contains(u, big[m]);
      if m < |small| {
        assert big[m] == small[m];
      }
    }
    if ContainsAny(u, small) {
      var m :| 0 <= m < |small| && Contains(u, small[m]);
      assert big[m] == small[m];
    }
    if Contains(u, extra) {
      assert big[|small|] == extra;
    }
  }

  /** The added midfield keywords change nothing: "CDM" holds "DM" and
      "CAM" holds "AM". */
  lemma MidfieldSetsAgree(u: string)
    ensures ContainsAny(u, AdvancedScorer.MidfieldKeywords) <==> ContainsAny(u, PlayerScorer.MidfieldKeywords)
  {
    var basic := PlayerScorer.MidfieldKeywords;
    assert AdvancedScorer.MidfieldKeywords == basic + ["CDM"] + ["CAM"];
    ExtendedSet(u, basic, "CDM");
    ExtendedSet(u, basic + ["CDM"], "CAM");
    ContainsAnyAt(u, basic);
    if Contains(u, "CDM") {
      OccursContains("CDM", "DM", 1);
      ContainsTrans(u, "CDM", "DM");
      assert basic[2] == "DM";
    }
    if Contains(u, "CAM") {
      OccursContains("CAM", "AM", 1);
      ContainsTrans(u, "CAM", "AM");
      assert basic[3] == "AM";
    }
  }

  /** The classifiers disagree only on a label holding "SS" or "SW", or one
      that holds both a defender's and a midfielder's keyword. */
  lemma ClassifiersAgreeUnlessAmbiguous(pos: string)
    ensures var u := Upper(pos);
      PlayerScorer.IdentifyPosition(Some(pos)) != AdvancedScorer.IdentifyPosition(Some(pos)) ==>
        Contains(u, "SS") || Contains(u, "SW") ||
        (ContainsAny(u, PlayerScorer.DefenseKeywords) && ContainsAny(u, PlayerScorer.MidfieldKeywords))
  {
    var u := Upper(pos);
    assert AdvancedScorer.ForwardKeywords == PlayerScorer.ForwardKeywords + ["SS"];
    assert AdvancedScorer.DefenseKeywords == PlayerScorer.DefenseKeywords + ["SW"];
    ExtendedSet(u, PlayerScorer.ForwardKeywords, "SS");
    ExtendedSet(u, PlayerScorer.DefenseKeywords, "SW");
    MidfieldSetsAgree(u);
  }

  /** The classifiers do disagree: "DF,MF" is a midfielder to the basic
      scorer and a defender to the advanced one. */
  lemma TwoRolesDiffer()
    ensures PlayerScorer.IdentifyPosition(Some("DF,MF")) == MF
    ensures AdvancedScorer.IdentifyPosition(Some("DF,MF")) == DF
  {
    UpperExamples();
    GoalkeeperExamples();
    PlayerScorer.TwoRolesLabel();
    AdvancedScorer.TwoRolesLabel();
  }

  /** "SS" is Unknown to the basic scorer and a forward to the advanced one. */
  lemma SecondStrikerDiffers()
    ensures PlayerScorer.IdentifyPosition(Some("SS")) == Unknown
    ensures AdvancedScorer.IdentifyPosition(Some("SS")) == FW
  {
    UpperExamples();
    GoalkeeperExamples();
    PlayerScorer.SecondStrikerLabel();
    AdvancedScorer.ForwardLabels();
  }
}
