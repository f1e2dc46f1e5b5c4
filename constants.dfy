/** Reference data of the application: the colour preset catalogue and the upload limits. */
module Constants {

  import opened Wrappers

  /** One swatch of the catalogue: its display name, its swatch colour and the text sent to the provider. */
  datatype ColorPreset = ColorPreset(name: string, hex: string, promptValue: string)

  const ColorPresets: seq<ColorPreset> := [
    ColorPreset("Classic Red", "#DC2626", "vibrant classic red"),
    ColorPreset("Navy Blue", "#1E3A8A", "deep navy blue"),
    ColorPreset("Emerald Green", "#059669", "rich emerald green"),
    ColorPreset("Pastel Pink", "#FBCFE8", "soft pastel pink"),
    ColorPreset("Gold", "#F59E0B", "metallic gold"),
    ColorPreset("Silver", "#9CA3AF", "metallic silver"),
    ColorPreset("Black", "#000000", "matte black"),
    ColorPreset("White", "#FFFFFF", "pure white")
  ]

  /** Upload size limit, in mebibytes. */
  const MaxFileSizeMb: nat := 5

  /** Media types the upload zone accepts, in the order they are listed. */
  const AllowedFileTypes: seq<string> := ["image/jpeg", "image/png", "image/webp"]

  /** The size limit in bytes, as the upload zone applies it (`MAX_FILE_SIZE_MB * 1024 * 1024`). */
  function MaxFileSizeBytes(): (n: nat)
    ensures n == 5_242_880
  {
    MaxFileSizeMb * 1024 * 1024
  }

  predicate IsUpperHexDigit(c: char) {
    '0' <= c <= '9' || 'A' <= c <= 'F'
  }

  /** '#' followed by exactly six upper-case hexadecimal digits. */
  predicate IsUpperHexColor(s: string) {
    |s| == 7 && s[0] == '#' && forall i :: 1 <= i < 7 ==> IsUpperHexDigit(s[i])
  }

  /** The first preset carrying the given name, if any. */
  function PresetNamed(name: string): (r: Option<ColorPreset>)
    ensures r.Some? ==> r.value in ColorPresets && r.value.name == name
    ensures r.None? ==> forall p :: p in ColorPresets ==> p.name != name
  {
    FirstNamed(ColorPresets, name)
  }

  function FirstNamed(ps: seq<ColorPreset>, name: string): (r: Option<ColorPreset>)
    ensures r.Some? ==> r.value in ps && r.value.name == name
    ensures r.None? ==> forall p :: p in ps ==> p.name != name
  {
    if ps == [] then None
    else if ps[0].name == name then Some(ps[0])
    else FirstNamed(ps[1..], name)
  }

  /** The catalogue has eight entries and no two of them share a name. */
  lemma PresetNamesDistinct()
    ensures |ColorPresets| == 8
    ensures forall i, j :: 0 <= i < j < |ColorPresets| ==> ColorPresets[i].name != ColorPresets[j].name
  {
  }

  /** Every swatch colour is '#' followed by six upper-case hexadecimal digits. */
  lemma PresetHexesAreUpperHex()
    ensures forall p :: p in ColorPresets ==> IsUpperHexColor(p.hex)
  {
    forall i | 0 <= i < |ColorPresets| ensures IsUpperHexColor(ColorPresets[i].hex) {
      var h := ColorPresets[i].hex;
      assert |h| == 7 && h[0] == '#';
      assert IsUpperHexDigit(h[1]) && IsUpperHexDigit(h[2]) && IsUpperHexDigit(h[3]);
      assert IsUpperHexDigit(h[4]) && IsUpperHexDigit(h[5]) && IsUpperHexDigit(h[6]);
    }
  }

  /** Every preset has a non-empty provider description. */
  lemma PresetPromptsNonEmpty()
    ensures forall p :: p in ColorPresets ==> p.promptValue != ""
  {
  }

  /** Looking a catalogue entry up by its name finds that very entry, because names are distinct. */
  lemma PresetLookup(p: ColorPreset)
    requires p in ColorPresets
    ensures PresetNamed(p.name) == Some(p)
  {
    PresetNamesDistinct();
    FirstNamedFinds(ColorPresets, p);
  }

  lemma {:induction false} FirstNamedFinds(ps: seq<ColorPreset>, p: ColorPreset)
    requires p in ps
    requires forall i, j :: 0 <= i < j < |ps| ==> ps[i].name != ps[j].name
    ensures FirstNamed(ps, p.name) == Some(p)
  {
    if ps[0] != p {
      var k :| 0 <= k < |ps| && ps[k] == p;
      assert ps[1..][k - 1] == p;
      FirstNamedFinds(ps[1..], p);
    }
  }

  /** The "Gold" entry of the catalogue. */
  lemma GoldPreset()
    ensures PresetNamed("Gold") == Some(ColorPreset("Gold", "#F59E0B", "metallic gold"))
  {
  }

  /** The allow-list holds exactly JPEG, PNG and WebP. */
  lemma AllowedTypes(t: string)
    ensures t in AllowedFileTypes <==> t == "image/jpeg" || t == "image/png" || t == "image/webp"
  {
  }
}
