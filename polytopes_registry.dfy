/** The static registry of the six regular 4-polytopes: names, counts and duals. */
module PolytopeRegistry {
  import opened Wrappers

  datatype PolyKey = FiveCell | Tesseract | SixteenCell | TwentyFourCell | OneTwentyCell | SixHundredCell

  /** The registry key strings. */
  function KeyName(k: PolyKey): string
  {
    match k
    case FiveCell => "5cell"
    case Tesseract => "tesseract"
    case SixteenCell => "16cell"
    case TwentyFourCell => "24cell"
    case OneTwentyCell => "120cell"
    case SixHundredCell => "600cell"
  }

  /** Looking a key string up; any other string names no polytope. */
  function KeyOf(s: string): (r: Option<PolyKey>)
    ensures r.Some? ==> KeyName(r.value) == s
  {
    if s == "5cell" then Some(FiveCell)
    else if s == "tesseract" then Some(Tesseract)
    else if s == "16cell" then Some(SixteenCell)
    else if s == "24cell" then Some(TwentyFourCell)
    else if s == "120cell" then Some(OneTwentyCell)
    else if s == "600cell" then Some(SixHundredCell)
    else None
  }

  lemma KeyRoundTrip(k: PolyKey)
    ensures KeyOf(KeyName(k)) == Some(k)
  {
  }

  datatype Entry = Entry(
    name: string, schlafli: string, cellType: string, analogy: string,
    V: nat, E: nat, F: nat, C: nat, dual: PolyKey)

  function Registry(k: PolyKey): Entry
  {
    match k
    case FiveCell =>
      Entry("Pentacoro (5-cell)", "{3,3,3}", "Tetraedro", "Tetraedro", 5, 10, 10, 5, FiveCell)
    case Tesseract =>
      Entry("Teseracto (Tesseract)", "{4,3,3}", "Cubo", "Cubo", 16, 32, 24, 8, SixteenCell)
    case SixteenCell =>
      Entry("Hexadecacoro (16-cell)", "{3,3,4}", "Tetraedro", "Octaedro", 8, 24, 32, 16, Tesseract)
    case TwentyFourCell =>
      Entry("Icositetracoro (24-cell)", "{3,4,3}", "Octaedro", "Sin an\U{e1}logo 3D", 24, 96, 96, 24, TwentyFourCell)
    case OneTwentyCell =>
      Entry("Hecatonicosacoro (120-cell)", "{5,3,3}", "Dodecaedro", "Dodecaedro", 600, 1200, 720, 120, SixHundredCell)
    case SixHundredCell =>
      Entry("Hexacosicoro (600-cell)", "{3,3,5}", "Tetraedro", "Icosaedro", 120, 720, 1200, 600, OneTwentyCell)
  }

  /** Euler's relation for 4-polytopes, V - E + F - C = 0, holds for every entry. */
  lemma RegistryEuler(k: PolyKey)
    ensures Registry(k).V - Registry(k).E + Registry(k).F - Registry(k).C == 0
  {
  }

  /**
   * Duality is an involution on the registry and swaps the counts:
   * vertices with cells and edges with faces.
   */
  lemma RegistryDuals(k: PolyKey)
    ensures Registry(Registry(k).dual).dual == k
    ensures Registry(Registry(k).dual).V == Registry(k).C
    ensures Registry(Registry(k).dual).C == Registry(k).V
    ensures Registry(Registry(k).dual).E == Registry(k).F
    ensures Registry(Registry(k).dual).F == Registry(k).E
  {
  }

  /** The Schlafli symbol of the dual is the reverse of the symbol. */
  lemma RegistrySchlafliReversed(k: PolyKey)
    ensures var s := Registry(k).schlafli; var d := Registry(Registry(k).dual).schlafli;
      |s| == 7 && |d| == 7 && d[1] == s[5] && d[3] == s[3] && d[5] == s[1]
  {
  }
}
