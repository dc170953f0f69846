/**
 * The prediction result view: the one-line summary of a similar bacterium (`getTaxonomyInfo`), its
 * genus/species/oxygen line, its name, its pathogen styling, and whether the similar list is shown.
 * A similar bacterium's text fields are strings or `null` as the client's `SimilarBacteria` type declares
 * them; `None` stands for `null` or a missing field.
 */
module BacteriaResult {
  import opened Wrappers
  import opened Values
  import Text
  import Api

  /** The fields of a similar bacterium the view reads. */
  datatype SimilarItem = SimilarItem(
    name: Option<string>,
    phylum: Option<string>, className: Option<string>, order: Option<string>, family: Option<string>,
    genus: Option<string>, species: Option<string>,
    gramStain: Option<string>, shape: Option<string>,
    oxygenPreference: Option<string>, habitat: Option<string>,
    isPathogen: Value)

  /** The text of a labelled field: "Label: value". */
  function Part(title: string, value: string): string {
    title + ": " + value
  }

  /** The text of one labelled field: one "Label: value" when it is set, none otherwise. */
  function Piece(field: (string, Option<string>)): seq<string> {
    if Present(field.1) then [Part(field.0, field.1.value)] else []
  }

  /** No field among `fields` is set. */
  predicate NoneSet(fields: seq<(string, Option<string>)>) {
    forall j :: 0 <= j < |fields| ==> !Present(fields[j].1)
  }

  /** Every set field among `fields` has its "Label: value" text in `parts`. */
  predicate ShowsEverySetField(fields: seq<(string, Option<string>)>, parts: seq<string>) {
    forall j :: 0 <= j < |fields| && Present(fields[j].1) ==> Part(fields[j].0, fields[j].1.value) in parts
  }

  /** Every text in `parts` is the "Label: value" text of a set field among `fields`. */
  predicate ShowsOnlySetFields(fields: seq<(string, Option<string>)>, parts: seq<string>) {
    forall p :: p in parts ==>
      exists j :: 0 <= j < |fields| && Present(fields[j].1) && p == Part(fields[j].0, fields[j].1.value)
  }

  /**
   * The "Label: value" texts of the fields among `fields` that are set, in the order of `fields`: every
   * set field contributes its text, every text comes from a set field, and there are no texts exactly
   * when no field is set.
   */
  function Labelled(fields: seq<(string, Option<string>)>): (parts: seq<string>)
    ensures |parts| <= |fields|
    ensures ShowsEverySetField(fields, parts) && ShowsOnlySetFields(fields, parts)
    ensures parts == [] <==> NoneSet(fields)
  {
    if fields == [] then []
    else
      var init := fields[..|fields| - 1];
      var rest := Labelled(init);
      assert forall j :: 0 <= j < |init| ==> init[j] == fields[j];
      rest + Piece(fields[|fields| - 1])
  }

  /** The first tier of the summary: phylum, class, order and family. */
  function TaxonomyTier(b: SimilarItem): seq<(string, Option<string>)> {
    [("Phylum", b.phylum), ("Class", b.className), ("Order", b.order), ("Family", b.family)]
  }

  /** The second tier, used only when the first is empty: gram stain and shape. */
  function ProfileTier(b: SimilarItem): seq<(string, Option<string>)> {
    [("Gram", b.gramStain), ("Shape", b.shape)]
  }

  /** The third tier, used only when the first two are empty: oxygen preference and habitat. */
  function HabitatTier(b: SimilarItem): seq<(string, Option<string>)> {
    [("Oxygen", b.oxygenPreference), ("Habitat", b.habitat)]
  }

  /** The parts of the summary: the first tier with any field set. */
  function SummaryParts(b: SimilarItem): seq<string> {
    var taxonomy := Labelled(TaxonomyTier(b));
    if taxonomy != [] then taxonomy
    else
      var profile := Labelled(ProfileTier(b));
      if profile != [] then profile else Labelled(HabitatTier(b))
  }

  const NoInformation: string := "No additional information available"

  /** The summary line: its parts joined with " | ", or a fixed text when there are none. */
  function Summary(b: SimilarItem): string {
    var parts := SummaryParts(b);
    if |parts| > 0 then Text.Join(parts, " | ") else NoInformation
  }

  /** A tier of two fields yields their texts in order. */
  lemma LabelledPair(fields: seq<(string, Option<string>)>)
    requires |fields| == 2
    ensures Labelled(fields) == Piece(fields[0]) + Piece(fields[1])
  {
    assert fields[..1][..0] == [];
  }

  /** A tier of four fields yields their texts in order. */
  lemma LabelledFour(fields: seq<(string, Option<string>)>)
    requires |fields| == 4
    ensures Labelled(fields) == Piece(fields[0]) + Piece(fields[1]) + Piece(fields[2]) + Piece(fields[3])
  {
    var f3 := fields[..3];
    assert f3[..2] == fields[..2];
    LabelledPair(fields[..2]);
  }

  /** `if (value) parts.push("Label: value")`. */
  method PushIfSet(parts: seq<string>, title: string, value: Option<string>) returns (r: seq<string>)
    ensures r == parts + Piece((title, value))
  {
    r := parts;
    if Present(value) {
      r := r + [Part(title, value.value)];
    }
  }

  /** The pushes of the taxonomy tier, onto an empty list. */
  method PushTaxonomy(b: SimilarItem) returns (parts: seq<string>)
    ensures parts == Labelled(TaxonomyTier(b))
  {
    parts := PushIfSet([], "Phylum", b.phylum);
    parts := PushIfSet(parts, "Class", b.className);
    parts := PushIfSet(parts, "Order", b.order);
    parts := PushIfSet(parts, "Family", b.family);
    LabelledFour(TaxonomyTier(b));
  }

  /** The pushes of a two-field tier, onto an empty list. */
  method PushPair(fields: seq<(string, Option<string>)>) returns (parts: seq<string>)
    requires |fields| == 2
    ensures parts == Labelled(fields)
  {
    parts := PushIfSet([], fields[0].0, fields[0].1);
    parts := PushIfSet(parts, fields[1].0, fields[1].1);
    LabelledPair(fields);
  }

  /**
   * `getTaxonomyInfo`: push the set fields of the taxonomy tier, then, while nothing was pushed, those
   * of the profile tier, then those of the habitat tier, and join what was pushed.
   */
  method GetTaxonomyInfo(b: SimilarItem) returns (info: string)
    ensures info == Summary(b)
  {
    var parts := PushTaxonomy(b);
    if |parts| == 0 {
      parts := PushPair(ProfileTier(b));
    }
    if |parts| == 0 {
      parts := PushPair(HabitatTier(b));
    }
    info := if |parts| > 0 then Text.Join(parts, " | ") else "No additional information available";
  }

  /** A part of the summary begins with this label. */
  predicate HasLabel(p: string, title: string) {
    Text.StartsWith(p, title + ": ")
  }

  /** A text of the summary names a field of the tier it was taken from. */
  lemma FromTier(fields: seq<(string, Option<string>)>, p: string) returns (j: nat)
    requires p in Labelled(fields)
    ensures j < |fields| && Present(fields[j].1) && p == Part(fields[j].0, fields[j].1.value)
  {
    j :| 0 <= j < |fields| && Present(fields[j].1) && p == Part(fields[j].0, fields[j].1.value);
  }

  /** A text carrying a label begins with it; so does the text of a field with that label. */
  lemma LabelPrefix(p: string, title: string, value: string)
    requires HasLabel(p, title) || p == Part(title, value)
    ensures |title| <= |p| && forall i :: 0 <= i < |title| ==> p[i] == title[i]
  {
    if HasLabel(p, title) {
      forall i | 0 <= i < |title| ensures p[i] == title[i] {
        assert p[..|title| + 2][i] == (title + ": ")[i];
      }
    }
  }

  /** Every set taxonomy field appears in the summary. */
  lemma TaxonomyAlwaysShown(b: SimilarItem)
    ensures forall j :: 0 <= j < 4 && Present(TaxonomyTier(b)[j].1) ==>
      Part(TaxonomyTier(b)[j].0, TaxonomyTier(b)[j].1.value) in SummaryParts(b)
  {
  }

  /** The first two letters of each tier's labels. */
  lemma TierInitials(b: SimilarItem, j: nat)
    ensures j < 4 ==> (|TaxonomyTier(b)[j].0| >= 2 &&
      (TaxonomyTier(b)[j].0[0], TaxonomyTier(b)[j].0[1]) in {('P', 'h'), ('C', 'l'), ('O', 'r'), ('F', 'a')})
    ensures j < 2 ==> (|ProfileTier(b)[j].0| >= 2 &&
      (ProfileTier(b)[j].0[0], ProfileTier(b)[j].0[1]) in {('G', 'r'), ('S', 'h')})
    ensures j < 2 ==> (|HabitatTier(b)[j].0| >= 2 &&
      (HabitatTier(b)[j].0[0], HabitatTier(b)[j].0[1]) in {('O', 'x'), ('H', 'a')})
  {
  }

  /** A gram stain or shape appears in the summary only when no taxonomy field is set. */
  lemma ProfileOnlyWithoutTaxonomy(b: SimilarItem, p: string)
    requires p in SummaryParts(b) && (HasLabel(p, "Gram") || HasLabel(p, "Shape"))
    ensures NoneSet(TaxonomyTier(b))
  {
    var t := TaxonomyTier(b);
    if !NoneSet(t) {
      var j := FromTier(t, p);
      LabelPrefix(p, t[j].0, t[j].1.value);
      TierInitials(b, j);
      if HasLabel(p, "Gram") { LabelPrefix(p, "Gram", ""); } else { LabelPrefix(p, "Shape", ""); }
    }
  }

  /** A text labelled with an oxygen preference or habitat is not taken from the taxonomy tier. */
  lemma HabitatLabelNotTaxonomy(b: SimilarItem, p: string)
    requires HasLabel(p, "Oxygen") || HasLabel(p, "Habitat")
    ensures p !in Labelled(TaxonomyTier(b))
  {
    var t := TaxonomyTier(b);
    if HasLabel(p, "Oxygen") { LabelPrefix(p, "Oxygen", ""); } else { LabelPrefix(p, "Habitat", ""); }
    if p in Labelled(t) {
      var j := FromTier(t, p);
      LabelPrefix(p, t[j].0, t[j].1.value);
      TierInitials(b, j);
    }
  }

  /** A text labelled with an oxygen preference or habitat is not taken from the profile tier. */
  lemma HabitatLabelNotProfile(b: SimilarItem, p: string)
    requires HasLabel(p, "Oxygen") || HasLabel(p, "Habitat")
    ensures p !in Labelled(ProfileTier(b))
  {
    var g := ProfileTier(b);
    if HasLabel(p, "Oxygen") { LabelPrefix(p, "Oxygen", ""); } else { LabelPrefix(p, "Habitat", ""); }
    if p in Labelled(g) {
      var j := FromTier(g, p);
      LabelPrefix(p, g[j].0, g[j].1.value);
      TierInitials(b, j);
    }
  }

  /** An oxygen preference or habitat appears in the summary only when none of the six fields before is set. */
  lemma HabitatOnlyAsLastResort(b: SimilarItem, p: string)
    requires p in SummaryParts(b) && (HasLabel(p, "Oxygen") || HasLabel(p, "Habitat"))
    ensures NoneSet(TaxonomyTier(b)) && NoneSet(ProfileTier(b))
  {
    HabitatLabelNotTaxonomy(b, p);
    HabitatLabelNotProfile(b, p);
  }

  /** The summary is the fixed text exactly when none of the eight fields is set. */
  lemma SummaryFallback(b: SimilarItem)
    ensures Summary(b) == NoInformation <==>
      NoneSet(TaxonomyTier(b)) && NoneSet(ProfileTier(b)) && NoneSet(HabitatTier(b))
  {
    var t, g, h := TaxonomyTier(b), ProfileTier(b), HabitatTier(b);
    var parts := SummaryParts(b);
    if parts != [] {
      Text.JoinStartsWithFirst(parts, " | ");
      var q := parts[0];
      var title: string;
      if Labelled(t) != [] {
        var j := FromTier(t, q);
        TierInitials(b, j);
        title := t[j].0;
        LabelPrefix(q, title, t[j].1.value);
      } else if Labelled(g) != [] {
        var j := FromTier(g, q);
        TierInitials(b, j);
        title := g[j].0;
        LabelPrefix(q, title, g[j].1.value);
      } else {
        var j := FromTier(h, q);
        TierInitials(b, j);
        title := h[j].0;
        LabelPrefix(q, title, h[j].1.value);
      }
      assert Summary(b)[0] == q[0] == title[0];
      assert NoInformation[0] == 'N';
    }
  }

  /** The values among `xs` that are set, in order. */
  function Shown(xs: seq<Option<string>>): (r: seq<string>)
    ensures |r| <= |xs|
    ensures forall i :: 0 <= i < |r| ==> r[i] != ""
  {
    if xs == [] then []
    else (if Present(xs[0]) then [xs[0].value] else []) + Shown(xs[1..])
  }

  /** `genus && species ? genus + " " + species : genus || species || ""`. */
  function GenusSpecies(b: SimilarItem): string {
    if Present(b.genus) && Present(b.species) then b.genus.value + " " + b.species.value
    else if Present(b.genus) then b.genus.value
    else if Present(b.species) then b.species.value
    else ""
  }

  /** `oxygen && (genus || species) ? " | " + oxygen : oxygen || ""`. */
  function OxygenSuffix(b: SimilarItem): string {
    if Present(b.oxygenPreference) && (Present(b.genus) || Present(b.species)) then " | " + b.oxygenPreference.value
    else if Present(b.oxygenPreference) then b.oxygenPreference.value
    else ""
  }

  /** The line under the summary: the genus/species text followed by the oxygen suffix. */
  function DetailLine(b: SimilarItem): string {
    GenusSpecies(b) + OxygenSuffix(b)
  }

  /**
   * The detail line is the set values among genus and species joined by a space, and that text and the
   * oxygen preference, where set, joined by " | ": the separators appear only between two shown values.
   */
  lemma DetailLineJoins(b: SimilarItem)
    ensures GenusSpecies(b) == Text.Join(Shown([b.genus, b.species]), " ")
    ensures DetailLine(b) == Text.Join(Shown([Some(GenusSpecies(b)), b.oxygenPreference]), " | ")
  {
    var gs := [b.genus, b.species];
    assert gs[1..] == [b.species] && gs[1..][1..] == [];
    var line := [Some(GenusSpecies(b)), b.oxygenPreference];
    assert line[1..] == [b.oxygenPreference] && line[1..][1..] == [];
  }

  /** `name || "Unknown Bacterium"`: the heading is never empty. */
  function DisplayName(b: SimilarItem): (r: string)
    ensures r != ""
    ensures Present(b.name) ==> r == b.name.value
    ensures !Present(b.name) ==> r == "Unknown Bacterium"
  {
    if Present(b.name) then b.name.value else "Unknown Bacterium"
  }

  /** `is_pathogen === true`: the item is styled as a pathogen. */
  predicate StyledPathogen(b: SimilarItem) {
    b.isPathogen == Bool(true)
  }

  /**
   * Only the boolean `true` gets the pathogen styling: `false`, `null` and a missing flag are styled
   * alike, and so is a truthy non-boolean such as the text "true".
   */
  lemma PathogenStyleIsStrict(b: SimilarItem)
    ensures StyledPathogen(b) ==> JsTruthy(b.isPathogen)
    ensures b.isPathogen in {Bool(false), Null, Undefined, Str("true"), Num(1.0)} ==> !StyledPathogen(b)
  {
  }

  /** `Array.isArray(result.similar_bacteria) && result.similar_bacteria.length > 0`. */
  predicate ShowsSimilarList(result: Value) {
    var similar := Api.OptProp(result, "similar_bacteria");
    similar.Arr? && |similar.items| > 0
  }

  /**
   * For a successful prediction whose payload is an object, the similar list is shown exactly when the
   * server sent a non-empty array of similar bacteria.
   */
  lemma SimilarListShownForNonEmptyArray(response: Api.HttpResponse, engine: Api.Engine)
    requires 200 <= response.status < 300
    requires response.data.Obj? && Get(response.data.fields, "data").Obj?
    ensures var r := Api.PredictPathogenicity(Ok(response), engine);
      var sent := Get(Get(response.data.fields, "data").fields, "similar_bacteria");
      r.Ok? && (ShowsSimilarList(r.value) <==> sent.Arr? && |sent.items| > 0)
  {
    Api.PredictionHasSimilarList(response, engine);
  }
}
