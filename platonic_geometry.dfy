/**
 * The 3-D lab's table of the five Platonic solids and its lookups: construction steps,
 * the dual's scale factor, folding-net data, and the vertex interpolation of a morph.
 */
module PlatonicGeometry {
  import opened Wrappers
  import opened RealMath

  datatype SolidKey = Tetrahedron | Cube | Octahedron | Dodecahedron | Icosahedron

  /** The table's keys as the lookups receive them. */
  function KeyOf(s: string): (r: Option<SolidKey>)
    ensures r.Some? ==> KeyName(r.value) == s
  {
    if s == "tetrahedron" then Some(Tetrahedron)
    else if s == "cube" then Some(Cube)
    else if s == "octahedron" then Some(Octahedron)
    else if s == "dodecahedron" then Some(Dodecahedron)
    else if s == "icosahedron" then Some(Icosahedron)
    else None
  }

  function KeyName(k: SolidKey): string
  {
    match k
    case Tetrahedron => "tetrahedron"
    case Cube => "cube"
    case Octahedron => "octahedron"
    case Dodecahedron => "dodecahedron"
    case Icosahedron => "icosahedron"
  }

  /** The combinatorial and naming fields of one entry of `solids`. */
  datatype Solid = Solid(
    name: string, nameEn: string, schlafli: string, p: nat, q: nat,
    V: nat, E: nat, F: nat,
    faceType: string, faceTypeEn: string, faceSides: nat, facesPerVertex: nat, edgesPerVertex: nat,
    symmetryGroup: string, symmetryOrder: nat, element: string, elementEn: string,
    dual: SolidKey, dualName: string)

  /** `solids[key]`, with the Schläfli symbol `{p,q}` also given as its two numbers. */
  function SolidOf(k: SolidKey): Solid
  {
    match k
    case Tetrahedron =>
      Solid("Tetraedro", "Tetrahedron", "{3,3}", 3, 3, 4, 6, 4, "Triángulo", "Triangle", 3, 3, 3,
            "T_d", 24, "Fuego", "Fire", Tetrahedron, "Tetraedro")
    case Cube =>
      Solid("Cubo", "Cube", "{4,3}", 4, 3, 8, 12, 6, "Cuadrado", "Square", 4, 3, 3,
            "O_h", 48, "Tierra", "Earth", Octahedron, "Octaedro")
    case Octahedron =>
      Solid("Octaedro", "Octahedron", "{3,4}", 3, 4, 6, 12, 8, "Triángulo", "Triangle", 3, 4, 4,
            "O_h", 48, "Aire", "Air", Cube, "Cubo")
    case Dodecahedron =>
      Solid("Dodecaedro", "Dodecahedron", "{5,3}", 5, 3, 20, 30, 12, "Pentágono", "Pentagon", 5, 3, 3,
            "I_h", 120, "Éter", "Ether", Icosahedron, "Icosaedro")
    case Icosahedron =>
      Solid("Icosaedro", "Icosahedron", "{3,5}", 3, 5, 12, 30, 20, "Triángulo", "Triangle", 3, 5, 5,
            "I_h", 120, "Agua", "Water", Dodecahedron, "Dodecaedro")
  }

  /**
   * Every solid satisfies Euler's formula V - E + F = 2 and counts each edge twice from its
   * faces and twice from its vertices; its Schläfli symbol is {faceSides, facesPerVertex}.
   * Duality is an involution (the tetrahedron is its own dual) that swaps vertices with faces
   * and face sides with faces per vertex, keeps the edges and the symmetry group, and names
   * the dual by its own name.
   */
  lemma SolidsTableProperties(k: SolidKey)
    ensures var s, d := SolidOf(k), SolidOf(SolidOf(k).dual);
      s.V as int - s.E as int + s.F as int == 2
      && s.F * s.faceSides == 2 * s.E && s.V * s.edgesPerVertex == 2 * s.E
      && s.p == s.faceSides && s.q == s.facesPerVertex && s.facesPerVertex == s.edgesPerVertex
      && SolidOf(d.dual) == s
      && d.V == s.F && d.F == s.V && d.E == s.E
      && d.faceSides == s.facesPerVertex && d.facesPerVertex == s.faceSides
      && d.symmetryGroup == s.symmetryGroup && d.symmetryOrder == s.symmetryOrder
      && s.dualName == d.name
      && (s.dual == k <==> k == Tetrahedron)
  {
    match k
    case Tetrahedron =>
    case Cube =>
    case Octahedron =>
    case Dodecahedron =>
    case Icosahedron =>
  }

  // ==================== the metric fields of `solids` ====================

  /**
   * The metric fields of one entry of `solids`: the rounded dihedral and solid angles, the
   * dihedral angle written out as TeX, and the coefficients (for an edge of length 1) of the
   * volume, the surface area and the radii of the circumscribed sphere, the inscribed sphere
   * and the sphere through the edge midpoints.
   */
  datatype Measures = Measures(
    dihedralAngleDeg: real, dihedralAngleExact: string, solidAngleSr: real,
    volume: real, area: real, circumradius: real, insphere: real, midradius: real)

  /** `x || 1`: a zero denominator is replaced by one. */
  function OrOne(x: real): (r: real)
    ensures r != 0.0 && (x != 0.0 ==> r == x)
  {
    if x == 0.0 then 1.0 else x
  }

  /** The metric fields as the object literal writes them, before the fixes that follow it. */
  function TableMeasures(k: SolidKey, sqrt: real -> real): Measures
    requires IsSqrt(sqrt)
  {
    SqrtPositive(sqrt, 3.0);
    match k
    case Tetrahedron =>
      Measures(70.528, "\\arccos\\left(\\frac{1}{3}\\right)", 0.5513,
        sqrt(2.0) / 12.0, sqrt(3.0), sqrt(6.0) / 4.0, sqrt(6.0) / 12.0, sqrt(2.0) / 4.0)
    case Cube =>
      Measures(90.0, "90°", 1.5708, 1.0, 6.0, sqrt(3.0) / 2.0, 0.5, sqrt(2.0) / 2.0)
    case Octahedron =>
      Measures(109.471, "\\arccos\\left(-\\frac{1}{3}\\right)", 1.3593,
        sqrt(2.0) / 3.0, 2.0 * sqrt(3.0), sqrt(2.0) / 2.0, sqrt(6.0) / 6.0, 0.5)
    case Dodecahedron =>
      var phi := Phi(sqrt);
      Measures(116.565, "\\arctan(2)", 2.9617,
        (15.0 + 7.0 * sqrt(5.0)) / 4.0, 3.0 * sqrt(25.0 + 10.0 * sqrt(5.0)),
        (sqrt(3.0) / 2.0) * phi, phi * phi / (2.0 * sqrt(3.0)), (phi * phi) / 2.0)
    case Icosahedron =>
      var phi := Phi(sqrt);
      Measures(138.190, "\\arccos\\left(-\\frac{\\sqrt{5}}{3}\\right)", 2.6344,
        (5.0 * (3.0 + sqrt(5.0))) / 12.0, 5.0 * sqrt(3.0),
        phi * sqrt(5.0) / OrOne(2.0 * sqrt(5.0 - sqrt(5.0))), phi * phi / (2.0 * sqrt(3.0)), phi / 2.0)
  }

  /**
   * The metric fields after the statements that follow the literal: the icosahedron's
   * circumradius becomes `sqrt(10 + 2 sqrt 5) / 4`, its insphere is assigned again, and the
   * dodecahedron's insphere becomes `1.11352`.
   */
  function MeasuresOf(k: SolidKey, sqrt: real -> real): Measures
    requires IsSqrt(sqrt)
  {
    var t := TableMeasures(k, sqrt);
    match k
    case Icosahedron =>
      SqrtPositive(sqrt, 3.0);
      var phi := Phi(sqrt);
      t.(circumradius := sqrt(10.0 + 2.0 * sqrt(5.0)) / 4.0, insphere := phi * phi / (2.0 * sqrt(3.0)))
    case Dodecahedron => t.(insphere := 1.11352)
    case _ => t
  }

  /** The area of a regular face with unit sides: triangle, square or pentagon. */
  function FaceArea(sides: nat, sqrt: real -> real): real
  {
    if sides == 3 then sqrt(3.0) / 4.0
    else if sides == 4 then 1.0
    else sqrt(25.0 + 10.0 * sqrt(5.0)) / 4.0
  }

  /**
   * For a unit edge: R² = ρ² + (1/2)² (the circumsphere meets a vertex, the midsphere the
   * midpoint of an edge through it) and 0 < r < ρ < R; the area is `faces` faces of area
   * `faceArea`; where `pyramids` holds, the volume is r · A / 3 (a pyramid over each face);
   * where `third` holds, the insphere is a third of the circumsphere.
   */
  ghost predicate Proportions(m: Measures, faces: nat, faceArea: real, pyramids: bool, third: bool)
  {
    Sq(m.circumradius) == Sq(m.midradius) + 0.25
    && 0.0 < m.insphere < m.midradius < m.circumradius
    && m.area == faces as real * faceArea
    && (pyramids ==> 3.0 * m.volume == m.insphere * m.area)
    && (third ==> 3.0 * m.insphere == m.circumradius)
  }

  /**
   * Every solid's metric fields are in those proportions, with its own face count and face
   * type; the volume is r · A / 3 for all but the dodecahedron, whose insphere is a rounded
   * decimal; the tetrahedron's insphere is a third of its circumsphere.
   */
  lemma MeasuresProperties(k: SolidKey, sqrt: real -> real)
    requires IsSqrt(sqrt)
    ensures Proportions(MeasuresOf(k, sqrt), SolidOf(k).F, FaceArea(SolidOf(k).faceSides, sqrt),
      k != Dodecahedron, k == Tetrahedron)
  {
    match k {
      case Tetrahedron => TetrahedronMeasures(sqrt);
      case Cube => CubeMeasures(sqrt);
      case Octahedron => OctahedronMeasures(sqrt);
      case Dodecahedron => DodecahedronMeasures(sqrt);
      case Icosahedron => IcosahedronMeasures(sqrt);
    }
  }

  /**
   * The literal's own icosahedron circumradius, `φ · sqrt 5 / (2 sqrt(5 − sqrt 5))`, breaks
   * R² = ρ² + 1/4 (it is about 1.088 where about 0.951 is right), which the later assignment
   * repairs; the literal's dodecahedron insphere is the icosahedron's formula, and the later
   * assignment of the icosahedron's insphere writes the value it already has.
   */
  lemma TableFixes(sqrt: real -> real)
    requires IsSqrt(sqrt)
    ensures var t := TableMeasures(Icosahedron, sqrt); Sq(t.circumradius) != Sq(t.midradius) + 0.25
    ensures TableMeasures(Dodecahedron, sqrt).insphere == TableMeasures(Icosahedron, sqrt).insphere
    ensures MeasuresOf(Icosahedron, sqrt).insphere == TableMeasures(Icosahedron, sqrt).insphere
    ensures MeasuresOf(Dodecahedron, sqrt).insphere != TableMeasures(Dodecahedron, sqrt).insphere
  {
    var t := TableMeasures(Icosahedron, sqrt);
    var s5 := sqrt(5.0);
    Between(sqrt, 5.0, 2.236, 2.237);
    var q := sqrt(5.0 - s5);
    Between(sqrt, 5.0 - s5, 1.662, 1.663);
    var phi := Phi(sqrt);
    assert OrOne(2.0 * q) == 2.0 * q;
    assert t.circumradius == phi * s5 / (2.0 * q);
    ProductAbove(phi, s5, 1.618, 2.236);
    RatioAboveOne(phi * s5, 2.0 * q);
    SquareAboveOne(t.circumradius);
    ProductBelow(phi / 2.0, phi / 2.0, 0.81, 0.81);
    assert Sq(t.midradius) < 0.75;
    DodecahedronInsphere(sqrt);
  }

  /** `lo < sqrt(x) < hi`, from the squares. */
  lemma Between(sqrt: real -> real, x: real, lo: real, hi: real)
    requires IsSqrt(sqrt) && 0.0 <= lo && Sq(lo) < x < Sq(hi) && 0.0 <= hi
    ensures lo < sqrt(x) < hi
  {
    SqrtGreater(sqrt, x, lo);
    SqrtLess(sqrt, x, hi);
  }

  lemma ProductAbove(a: real, b: real, la: real, lb: real)
    requires 0.0 <= la < a && 0.0 <= lb < b
    ensures la * lb < a * b
  {
    assert la * lb <= la * b;
    assert la * b < a * b;
  }

  lemma ProductBelow(a: real, b: real, ha: real, hb: real)
    requires 0.0 <= a < ha && 0.0 <= b < hb
    ensures a * b < ha * hb
  {
    assert a * b <= a * hb;
    assert a * hb < ha * hb;
  }

  lemma RatioAboveOne(x: real, y: real)
    requires 0.0 < y < x
    ensures x / y > 1.0
  {
  }

  lemma SquareAboveOne(x: real)
    requires x > 1.0
    ensures Sq(x) > 1.0
  {
    assert x * x > x * 1.0;
  }

  /** R² = ρ² + 1/4 puts the midsphere inside the circumsphere. */
  lemma MidLessCircum(rho: real, r: real)
    requires 0.0 < rho && 0.0 <= r && Sq(r) == Sq(rho) + 0.25
    ensures rho < r
  {
    assert (r - rho) * (r + rho) == Sq(r) - Sq(rho);
    PositiveFactor(r - rho, r + rho);
  }

  lemma PositiveFactor(a: real, b: real)
    requires 0.0 < b && 0.0 < a * b
    ensures 0.0 < a
  {
  }

  lemma SqOver(x: real, c: real)
    requires c != 0.0
    ensures Sq(x / c) * (c * c) == Sq(x)
  {
    var q := x / c;
    assert q * c == x;
    assert Sq(x) == (q * q) * (c * c);
  }

  /** `sqrt a · sqrt b = sqrt(a · b)`. */
  lemma SqrtProduct(sqrt: real -> real, a: real, b: real)
    requires IsSqrt(sqrt) && 0.0 <= a && 0.0 <= b
    ensures sqrt(a) * sqrt(b) == sqrt(a * b)
  {
    var x, y := sqrt(a), sqrt(b);
    assert Sq(x * y) == Sq(x) * Sq(y);
    SqrtUnique(sqrt, a * b, x * y);
  }

  /** `sqrt 6 · sqrt 3 = 3 sqrt 2`. */
  lemma SqrtSixThree(sqrt: real -> real)
    requires IsSqrt(sqrt)
    ensures sqrt(6.0) * sqrt(3.0) == 3.0 * sqrt(2.0)
  {
    SqrtProduct(sqrt, 6.0, 3.0);
    var s2 := sqrt(2.0);
    assert Sq(3.0 * s2) == 9.0 * Sq(s2);
    SqrtUnique(sqrt, 18.0, 3.0 * s2);
  }

  lemma TetrahedronMeasures(sqrt: real -> real)
    requires IsSqrt(sqrt)
    ensures Proportions(MeasuresOf(Tetrahedron, sqrt), 4, FaceArea(3, sqrt), true, true)
  {
    var s2, s6 := sqrt(2.0), sqrt(6.0);
    SqOver(s6, 4.0);
    SqOver(s2, 4.0);
    Between(sqrt, 6.0, 2.449, 2.45);
    Between(sqrt, 2.0, 1.414, 1.415);
    SqrtSixThree(sqrt);
    assert s6 / 12.0 * sqrt(3.0) == s6 * sqrt(3.0) / 12.0;
    MidLessCircum(MeasuresOf(Tetrahedron, sqrt).midradius, MeasuresOf(Tetrahedron, sqrt).circumradius);
  }

  lemma CubeMeasures(sqrt: real -> real)
    requires IsSqrt(sqrt)
    ensures Proportions(MeasuresOf(Cube, sqrt), 6, FaceArea(4, sqrt), true, false)
  {
    SqOver(sqrt(3.0), 2.0);
    SqOver(sqrt(2.0), 2.0);
    Between(sqrt, 2.0, 1.414, 1.415);
    MidLessCircum(MeasuresOf(Cube, sqrt).midradius, MeasuresOf(Cube, sqrt).circumradius);
  }

  lemma OctahedronMeasures(sqrt: real -> real)
    requires IsSqrt(sqrt)
    ensures Proportions(MeasuresOf(Octahedron, sqrt), 8, FaceArea(3, sqrt), true, false)
  {
    var s3, s6 := sqrt(3.0), sqrt(6.0);
    SqOver(sqrt(2.0), 2.0);
    Between(sqrt, 6.0, 2.449, 2.45);
    SqrtSixThree(sqrt);
    assert s6 / 6.0 * (2.0 * s3) == s6 * s3 / 3.0;
    MidLessCircum(MeasuresOf(Octahedron, sqrt).midradius, MeasuresOf(Octahedron, sqrt).circumradius);
  }

  lemma DodecahedronMeasures(sqrt: real -> real)
    requires IsSqrt(sqrt)
    ensures Proportions(MeasuresOf(Dodecahedron, sqrt), 12, FaceArea(5, sqrt), false, false)
  {
    var m := MeasuresOf(Dodecahedron, sqrt);
    var s3 := sqrt(3.0);
    var phi := Phi(sqrt);
    PhiProperties(sqrt);
    Between(sqrt, 5.0, 2.236, 2.237);
    assert phi > 1.618;
    assert m.midradius == (phi + 1.0) / 2.0;
    assert m.circumradius == sqrt(3.0) * phi / 2.0;
    DodecahedronRadii(sqrt(3.0), phi);
    MidLessCircum(m.midradius, m.circumradius);
  }

  /** With `s² = 3` and `φ² = φ + 1`: `(s φ / 2)² = ((φ + 1) / 2)² + 1/4`. */
  lemma DodecahedronRadii(s: real, phi: real)
    requires Sq(s) == 3.0 && phi * phi == phi + 1.0
    ensures Sq(s * phi / 2.0) == Sq((phi + 1.0) / 2.0) + 0.25
  {
    SqOver(s * phi, 2.0);
    assert Sq(s * phi) == Sq(s) * (phi * phi);
    SqOver(phi + 1.0, 2.0);
    assert Sq(phi + 1.0) == phi * phi + 2.0 * phi + 1.0;
  }

  /** The literal's dodecahedron insphere is the icosahedron's formula, below the fixed `1.11352`. */
  lemma DodecahedronInsphere(sqrt: real -> real)
    requires IsSqrt(sqrt)
    ensures TableMeasures(Dodecahedron, sqrt).insphere == TableMeasures(Icosahedron, sqrt).insphere
    ensures TableMeasures(Dodecahedron, sqrt).insphere < MeasuresOf(Dodecahedron, sqrt).insphere
  {
    var s3 := sqrt(3.0);
    var phi := Phi(sqrt);
    PhiProperties(sqrt);
    Between(sqrt, 3.0, 1.732, 1.733);
    Between(sqrt, 5.0, 2.236, 2.237);
    var ti := TableMeasures(Dodecahedron, sqrt).insphere;
    assert ti == (phi + 1.0) / (2.0 * s3);
    RatioBelow(phi + 1.0, 2.0 * s3, 2.6185, 3.464);
  }

  lemma RatioBelow(x: real, y: real, hx: real, ly: real)
    requires 0.0 <= x < hx && 0.0 < ly < y
    ensures x / y < hx / ly
  {
    assert x / y <= x / ly;
    assert x / ly < hx / ly;
  }

  lemma IcosahedronMeasures(sqrt: real -> real)
    requires IsSqrt(sqrt)
    ensures Proportions(MeasuresOf(Icosahedron, sqrt), 20, FaceArea(3, sqrt), true, false)
  {
    var m := MeasuresOf(Icosahedron, sqrt);
    var s3, s5 := sqrt(3.0), sqrt(5.0);
    var phi := Phi(sqrt);
    PhiProperties(sqrt);
    Between(sqrt, 5.0, 2.236, 2.237);
    Between(sqrt, 3.0, 1.732, 1.733);
    IcosahedronRadii(sqrt(10.0 + 2.0 * s5), s5, phi);
    assert m.insphere == (phi + 1.0) / (2.0 * s3);
    InsphereBelowMid(phi, s3);
    CancelRoot(phi + 1.0, s3);
    MidLessCircum(m.midradius, m.circumradius);
  }

  /** With `q² = 10 + 2 s`, `s² = 5` and `φ = (1 + s) / 2`: `(q / 4)² = (φ / 2)² + 1/4`. */
  lemma IcosahedronRadii(q: real, s: real, phi: real)
    requires Sq(q) == 10.0 + 2.0 * s && Sq(s) == 5.0 && phi == (1.0 + s) / 2.0
    ensures Sq(q / 4.0) == Sq(phi / 2.0) + 0.25
  {
    SqOver(q, 4.0);
    SqOver(phi, 2.0);
    assert Sq(phi) == (1.0 + 2.0 * s + Sq(s)) / 4.0;
  }

  /** `(φ + 1) / (2 s) < φ / 2` when `φ < s`, for the golden ratio. */
  lemma InsphereBelowMid(phi: real, s: real)
    requires 1.5 < phi < s && phi * phi == phi + 1.0
    ensures 0.0 < (phi + 1.0) / (2.0 * s) < phi / 2.0
  {
    assert phi + 1.0 == phi * phi < phi * s;
    assert (phi + 1.0) / (2.0 * s) < phi * s / (2.0 * s);
  }

  lemma CancelRoot(x: real, s: real)
    requires s > 0.0
    ensures x / (2.0 * s) * (5.0 * s) == 5.0 * x / 2.0
  {
  }

  // ==================== getConstructionSteps ====================

  /** What a construction step draws (the `show` field). */
  datatype Show = Vertices | Edges | Faces | Complete

  datatype Step = Step(title: string, desc: string, show: Show)

  /** The titles every solid's list shares. */
  function StepTitle(i: nat): string
  {
    if i == 0 then "Paso 1: Vértices"
    else if i == 1 then "Paso 2: Aristas"
    else if i == 2 then "Paso 3: Caras"
    else "Paso 4: Sólido completo"
  }

  /** The description of step `i` of solid `k`'s list. */
  function StepDesc(k: SolidKey, i: nat): string
  {
    match k
    case Tetrahedron =>
      if i == 0 then "Posicionar 4 vértices equidistantes en el espacio formando un tetraedro regular."
      else if i == 1 then "Conectar cada par de vértices con una arista. Son 6 aristas de igual longitud."
      else if i == 2 then "Cada grupo de 3 vértices forma una cara triangular equilátera. Son 4 caras."
      else "El tetraedro regular: el más simple de los sólidos platónicos. Auto-dual."
    case Cube =>
      if i == 0 then "Posicionar 8 vértices en las esquinas de un cubo de lado a."
      else if i == 1 then "Conectar vértices adyacentes con 12 aristas iguales."
      else if i == 2 then "Cerrar las 6 caras cuadradas del cubo (hexaedro regular)."
      else "El cubo: el único sólido platónico con caras cuadradas. Dual del octaedro."
    case Octahedron =>
      if i == 0 then "Posicionar 6 vértices: uno en cada semieje (±x, ±y, ±z)."
      else if i == 1 then "Conectar cada vértice con sus 4 vecinos. Son 12 aristas iguales."
      else if i == 2 then "Formar 8 caras triangulares equiláteras, 4 en cada hemisferio."
      else "El octaedro regular: dual del cubo. Unión de dos pirámides."
    case Dodecahedron =>
      if i == 0 then "Posicionar 20 vértices usando coordenadas basadas en la razón áurea φ."
      else if i == 1 then "Conectar vértices adyacentes con 30 aristas iguales."
      else if i == 2 then "Formar 12 caras pentagonales regulares."
      else "El dodecaedro: el cosmos según Platón. Dual del icosaedro."
    case Icosahedron =>
      if i == 0 then "Posicionar 12 vértices usando la razón áurea en 3 rectángulos áureos ortogonales."
      else if i == 1 then "Conectar vértices cercanos con 30 aristas iguales."
      else if i == 2 then "Formar 20 caras triangulares equiláteras."
      else "El icosaedro: 20 caras, máximo número entre los platónicos. Dual del dodecaedro."
  }

  /** The step lists of `getConstructionSteps`. */
  function StepsOf(k: SolidKey): seq<Step>
  {
    [Step(StepTitle(0), StepDesc(k, 0), Vertices), Step(StepTitle(1), StepDesc(k, 1), Edges),
     Step(StepTitle(2), StepDesc(k, 2), Faces), Step(StepTitle(3), StepDesc(k, 3), Complete)]
  }

  /** `steps[solidKey] || steps.tetrahedron`. */
  function ConstructionSteps(key: string): seq<Step>
  {
    StepsOf(KeyOf(key).GetOr(Tetrahedron))
  }

  /**
   * An unknown key gets the tetrahedron's list, and every list has four steps, titled alike
   * for every solid, showing the vertices, the edges, the faces and the complete solid.
   */
  lemma ConstructionStepsProperties(key: string)
    ensures KeyOf(key).None? ==> ConstructionSteps(key) == StepsOf(Tetrahedron)
    ensures |ConstructionSteps(key)| == 4
    ensures ConstructionSteps(key)[0].show == Vertices && ConstructionSteps(key)[1].show == Edges
    ensures ConstructionSteps(key)[2].show == Faces && ConstructionSteps(key)[3].show == Complete
    ensures forall i :: 0 <= i < 4 ==> ConstructionSteps(key)[i].title == StepTitle(i)
  {
  }

  // ==================== getDualScale ====================

  /** `PHI = (1 + sqrt(5)) / 2`. */
  function Phi(sqrt: real -> real): real
  {
    (1.0 + sqrt(5.0)) / 2.0
  }

  /** The golden ratio exceeds 3/2 and squares to itself plus one. */
  lemma PhiProperties(sqrt: real -> real)
    requires IsSqrt(sqrt)
    ensures Phi(sqrt) > 1.5 && Phi(sqrt) * Phi(sqrt) == Phi(sqrt) + 1.0
  {
    var r := sqrt(5.0);
    SqrtGreater(sqrt, 5.0, 2.0);
    assert Sq(r) == 5.0;
    var phi := Phi(sqrt);
    assert phi * phi == (1.0 + 2.0 * r + Sq(r)) / 4.0;
  }

  /** The entry of `scales` for a known solid. */
  function ScaleEntry(k: SolidKey, sqrt: real -> real): real
    requires IsSqrt(sqrt)
  {
    match k
    case Tetrahedron => 1.0 / 3.0
    case Cube => SqrtPositive(sqrt, 3.0); 1.0 / sqrt(3.0)
    case Octahedron => sqrt(3.0) / 3.0
    case Dodecahedron => PhiProperties(sqrt); 1.0 / (Phi(sqrt) * Phi(sqrt))
    case Icosahedron => PhiProperties(sqrt); Phi(sqrt) / (Phi(sqrt) + 1.0)
  }

  /** `scales[solidKey] || 0.5`: the default replaces a missing (or zero) entry. */
  function DualScale(key: string, sqrt: real -> real): real
    requires IsSqrt(sqrt)
  {
    match KeyOf(key)
    case None => 0.5
    case Some(k) => if ScaleEntry(k, sqrt) == 0.0 then 0.5 else ScaleEntry(k, sqrt)
  }

  /**
   * An unknown key scales by 0.5.  Every known scale lies strictly between 0 and 1; the cube
   * and the octahedron share theirs (1/sqrt 3), the icosahedron's is 1/phi and the
   * dodecahedron's is its square.
   */
  lemma DualScaleProperties(key: string, sqrt: real -> real)
    requires IsSqrt(sqrt)
    ensures KeyOf(key).None? ==> DualScale(key, sqrt) == 0.5
    ensures KeyOf(key).Some? ==> 0.0 < DualScale(key, sqrt) < 1.0
    ensures DualScale("tetrahedron", sqrt) == 1.0 / 3.0
    ensures DualScale("cube", sqrt) == DualScale("octahedron", sqrt)
    ensures DualScale("icosahedron", sqrt) * Phi(sqrt) == 1.0
    ensures DualScale("dodecahedron", sqrt) == Sq(DualScale("icosahedron", sqrt))
  {
    var r3 := sqrt(3.0);
    SqrtGreater(sqrt, 3.0, 1.0);
    assert r3 * r3 == 3.0;
    assert r3 / 3.0 == 1.0 / r3;
    PhiProperties(sqrt);
    var phi := Phi(sqrt);
    GoldenScales(phi);
  }

  lemma GoldenScales(phi: real)
    requires phi > 1.5 && phi * phi == phi + 1.0
    ensures phi / (phi + 1.0) * phi == 1.0
    ensures 0.0 < phi / (phi + 1.0) < 1.0 && 0.0 < 1.0 / (phi * phi) < 1.0
    ensures 1.0 / (phi * phi) == Sq(phi / (phi + 1.0))
  {
    var s := phi / (phi + 1.0);
    assert s == 1.0 / phi;
    assert Sq(s) == 1.0 / (phi * phi);
  }

  // ==================== getNetData ====================

  datatype Net = Net(available: bool, faceCount: nat, description: string)

  function NetOf(k: SolidKey): Net
  {
    match k
    case Tetrahedron => Net(true, 4, "Red del tetraedro: 4 triángulos equiláteros dispuestos en forma de triángulo grande.")
    case Cube => Net(true, 6, "Red del cubo: 6 cuadrados en forma de cruz.")
    case Octahedron => Net(false, 8, "Red del octaedro (próximamente).")
    case Dodecahedron => Net(false, 12, "Red del dodecaedro (próximamente).")
    case Icosahedron => Net(false, 20, "Red del icosaedro (próximamente).")
  }

  /** `nets[solidKey] || nets.tetrahedron`. */
  function NetData(key: string): Net
  {
    NetOf(KeyOf(key).GetOr(Tetrahedron))
  }

  /**
   * An unknown key gets the tetrahedron's entry; only the tetrahedron's and the cube's nets
   * are available, and every entry's face count is its solid's F.
   */
  lemma NetDataProperties(key: string)
    ensures KeyOf(key).None? ==> NetData(key) == NetOf(Tetrahedron)
    ensures NetData(key).available <==> KeyOf(key).None? || KeyOf(key) == Some(Tetrahedron) || KeyOf(key) == Some(Cube)
    ensures NetData(key).faceCount == SolidOf(KeyOf(key).GetOr(Tetrahedron)).F
  {
    match KeyOf(key).GetOr(Tetrahedron)
    case Tetrahedron =>
    case Cube =>
    case Octahedron =>
    case Dodecahedron =>
    case Icosahedron =>
  }

  // ==================== getMorphVertices ====================

  /**
   * Entry `i` of a list cycled to any length: `i < length ? list[i] : list[i % length]`,
   * which is `list[i % length]` either way.
   */
  function Cycled(xs: seq<real>, i: nat): (r: real)
    requires |xs| > 0
    ensures r == xs[i % |xs|]
  {
    if i < |xs| then xs[i] else xs[i % |xs|]
  }

  /** Both lists, or neither, have entries; a morph between an empty and a non-empty list reads `NaN`. */
  predicate MorphArgs(from: seq<real>, to: seq<real>)
  {
    (|from| == 0) == (|to| == 0)
  }

  /** The morph's entries: each cycled `from` entry moved towards the cycled `to` entry by `t`. */
  function Morph(from: seq<real>, to: seq<real>, t: real): (r: seq<real>)
    requires MorphArgs(from, to)
  {
    seq(if |from| < |to| then |to| else |from|, i requires 0 <= i < (if |from| < |to| then |to| else |from|) =>
      Cycled(from, i) + (Cycled(to, i) - Cycled(from, i)) * t)
  }

  /** The morph is as long as the longer of the two lists. */
  lemma MorphLength(from: seq<real>, to: seq<real>, t: real)
    requires MorphArgs(from, to)
    ensures |Morph(from, to, t)| >= |from| && |Morph(from, to, t)| >= |to|
    ensures |Morph(from, to, t)| == |from| || |Morph(from, to, t)| == |to|
  {
  }

  /**
   * Entry `i` of the morph lies on the line from `from[i mod |from|]` to `to[i mod |to|]`;
   * at `t = 0` it is `from`'s own entry and at `t = 1` it is `to`'s own entry.
   */
  lemma MorphAt(from: seq<real>, to: seq<real>, t: real, i: nat)
    requires MorphArgs(from, to) && i < |Morph(from, to, t)|
    ensures Morph(from, to, t)[i] == from[i % |from|] + (to[i % |to|] - from[i % |from|]) * t
    ensures t == 0.0 && i < |from| ==> Morph(from, to, t)[i] == from[i]
    ensures t == 1.0 && i < |to| ==> Morph(from, to, t)[i] == to[i]
  {
    var f, g := from[i % |from|], to[i % |to|];
    assert Morph(from, to, t)[i] == f + (g - f) * t;
    if t == 0.0 && i < |from| {
      SmallRemainder(i, |from|);
    }
    if t == 1.0 && i < |to| {
      SmallRemainder(i, |to|);
    }
  }

  lemma SmallRemainder(i: nat, n: nat)
    requires i < n
    ensures i % n == i
  {
  }

  /** `getMorphVertices`: the index loop over the longer length. */
  method GetMorphVertices(from: seq<real>, to: seq<real>, t: real) returns (result: array<real>)
    requires MorphArgs(from, to)
    ensures fresh(result)
    ensures result[..] == Morph(from, to, t)
  {
    var maxLen := if |from| < |to| then |to| else |from|;
    result := new real[maxLen];
    var i := 0;
    while i < maxLen
      invariant i <= maxLen
      invariant forall k :: 0 <= k < i ==> result[k] == Morph(from, to, t)[k]
    {
      var fromVal := if i < |from| then from[i] else from[i % |from|];
      var toVal := if i < |to| then to[i] else to[i % |to|];
      result[i] := fromVal + (toVal - fromVal) * t;
      i := i + 1;
    }
  }
}
