/** The store-only ZIP writer (lib/services/webk/webapp/builder/js/descargas.js) and reader (cargar.js) at
    byte level: local headers with bodies, the central directory, the end record. */
module ZipStore {
  import opened Bytes
  import opened Checksums

  datatype Archivo = Archivo(nombre: seq<byte>, cuerpo: seq<byte>)

  /** What the reader throws; OutOfBounds is the RangeError of a DataView or Uint8Array. */
  datatype ZipError =
    | NoEsUnZip
    | RotoCentral
    | RotoLocal(nombre: seq<byte>)
    | VieneComprimido(nombre: seq<byte>, metodo: nat)
    | OutOfBounds

  datatype Result<+T> = Ok(value: T) | Err(error: ZipError)

  const FIRMA_LOCAL := 0x04034b50
  const FIRMA_CENTRAL := 0x02014b50
  const FIRMA_FIN := 0x06054b50

  // === Little-endian fields ===

  /** The n low bytes of a number, lowest first: `v & 0xFF, (v >> 8) & 0xFF, ..`. */
  function Low(v: nat, n: nat): (r: seq<byte>)
    ensures |r| == n
    decreases n, v
  {
    if n == 0 then [] else [v % 256] + Low(v / 256, n - 1)
  }

  function Get(s: seq<byte>, i: nat, n: nat): nat
    requires i + n <= |s|
    decreases n, i
  {
    if n == 0 then 0 else s[i] as int + 256 * Get(s, i + 1, n - 1)
  }

  function U16(v: nat): (r: seq<byte>) ensures |r| == 2 { Low(v, 2) }

  function U32(v: nat): (r: seq<byte>) ensures |r| == 4 { Low(v, 4) }

  function GetU16(s: seq<byte>, i: nat): nat requires i + 2 <= |s| { Get(s, i, 2) }

  function GetU32(s: seq<byte>, i: nat): nat requires i + 4 <= |s| { Get(s, i, 4) }

  /** What is read from a slice is read from the whole. */
  lemma {:induction false} GetSlice(s: seq<byte>, part: seq<byte>, a: nat, i: nat, n: nat)
    requires Holds(s, a, part) && i + n <= |part|
    ensures Get(s, a + i, n) == Get(part, i, n)
    decreases n, i
  {
    if n > 0 {
      assert part[i] == s[a + i];
      GetSlice(s, part, a, i + 1, n - 1);
    }
  }

  lemma {:induction false} LowRoundTrip(v: nat, n: nat)
    ensures Get(Low(v, n), 0, n) == v % Pow2(8 * n)
    decreases n, v
  {
    if n > 0 {
      var rest := Low(v / 256, n - 1);
      GetSlice(Low(v, n), rest, 1, 0, n - 1);
      LowRoundTrip(v / 256, n - 1);
      Pow2Add(8, 8 * (n - 1));
      assert Pow2(8) == 256;
      ModStep(v, Pow2(8 * (n - 1)));
    }
  }

  lemma ModStep(v: nat, p: nat)
    requires p > 0
    ensures v % 256 + 256 * ((v / 256) % p) == v % (256 * p)
  {
    var h := v / 256;
    var q, r := h / p, h % p;
    assert h == q * p + r;
    assert v == q * (256 * p) + (256 * r + v % 256);
    assert 256 * r + v % 256 < 256 * p;
    Remainder(v, q, 256 * r + v % 256, 256 * p);
  }

  lemma Remainder(v: nat, q: nat, r: nat, p: nat)
    requires v == q * p + r && r < p
    ensures v % p == r
  {
    var q' := v / p;
    assert v == q' * p + v % p;
    assert (q - q') * p == v % p - r;
    SmallMultiple(q - q', p, v % p - r);
  }

  lemma SmallMultiple(k: int, p: int, d: int)
    requires 0 < p && k * p == d && -p < d < p
    ensures k == 0
  {
    PositiveMultiple(k, p);
    PositiveMultiple(-k, p);
    assert (-k) * p == -d;
  }

  lemma PositiveMultiple(k: int, p: int)
    requires 0 < p
    ensures k >= 1 ==> k * p >= p
  {
    assert k >= 1 ==> (k - 1) * p >= 0;
  }

  lemma FieldsRoundTrip(v: nat)
    ensures GetU16(U16(v), 0) == v % 0x1_0000
    ensures GetU32(U32(v), 0) == v % 0x1_0000_0000
  {
    PowersOfWord();
    LowRoundTrip(v, 2);
    LowRoundTrip(v, 4);
    assert Pow2(8) == 256;
    Pow2Add(8, 8);
  }

  // === Records: fields one after the other ===

  datatype Campo = C16(v: nat) | C32(v: nat)

  function Octetos(c: Campo): (r: seq<byte>)
    ensures |r| == Ancho(c)
  {
    match c
    case C16(v) => U16(v)
    case C32(v) => U32(v)
  }

  function Ancho(c: Campo): nat { if c.C16? then 2 else 4 }

  function Codificar(cs: seq<Campo>): (r: seq<byte>)
    ensures |r| == Posicion(cs, |cs|)
  {
    if cs == [] then []
    else
      PosicionPrefix(cs, |cs| - 1, |cs| - 1);
      Codificar(cs[..|cs| - 1]) + Octetos(cs[|cs| - 1])
  }

  /** Where field j starts. */
  function Posicion(cs: seq<Campo>, j: nat): nat
    requires j <= |cs|
    decreases j, |cs|
  {
    if j == 0 then 0 else Posicion(cs, j - 1) + Ancho(cs[j - 1])
  }

  /** A table of positions is right when each step adds the width of a field. */
  lemma {:induction false} PosicionTable(cs: seq<Campo>, t: seq<nat>, j: nat)
    requires |t| == |cs| + 1 && t[0] == 0 && j <= |cs|
    requires forall i :: 0 <= i < |cs| ==> t[i + 1] == t[i] + Ancho(cs[i])
    ensures Posicion(cs, j) == t[j]
    decreases j, |cs|
  {
    if j > 0 {
      PosicionTable(cs, t, j - 1);
      assert t[j - 1 + 1] == t[j - 1] + Ancho(cs[j - 1]);
    }
  }

  lemma {:induction false} PosicionPrefix(cs: seq<Campo>, n: nat, j: nat)
    requires j <= n <= |cs|
    ensures Posicion(cs[..n], j) == Posicion(cs, j)
  {
    if j > 0 {
      PosicionPrefix(cs, n, j - 1);
    }
  }

  ghost predicate Holds(buf: seq<byte>, a: nat, part: seq<byte>)
  {
    a + |part| <= |buf| && forall j :: 0 <= j < |part| ==> part[j] == buf[a + j]
  }

  lemma HoldsPart(buf: seq<byte>, a: nat, whole: seq<byte>, k: nat, part: seq<byte>)
    requires Holds(buf, a, whole) && Holds(whole, k, part)
    ensures Holds(buf, a + k, part)
  {
    forall j | 0 <= j < |part| ensures part[j] == buf[a + k + j] {
      assert part[j] == whole[k + j];
      assert whole[k + j] == buf[a + (k + j)];
    }
  }

  lemma HoldsConcat(x: seq<byte>, y: seq<byte>)
    ensures Holds(x + y, 0, x) && Holds(x + y, |x|, y)
  {
  }

  lemma {:induction false} CampoAt(cs: seq<Campo>, j: nat)
    requires j < |cs|
    ensures Holds(Codificar(cs), Posicion(cs, j), Octetos(cs[j]))
  {
    var n := |cs| - 1;
    PosicionPrefix(cs, n, j);
    LastField(cs);
    if j < n {
      CampoAt(cs[..n], j);
      HoldsPart(Codificar(cs), 0, Codificar(cs[..n]), Posicion(cs, j), Octetos(cs[j]));
    }
  }

  /** The last field lies behind the others. */
  lemma LastField(cs: seq<Campo>)
    requires cs != []
    ensures var n := |cs| - 1;
      Holds(Codificar(cs), 0, Codificar(cs[..n])) && Holds(Codificar(cs), Posicion(cs, n), Octetos(cs[n]))
  {
    var n := |cs| - 1;
    PosicionPrefix(cs, n, n);
    HoldsConcat(Codificar(cs[..n]), Octetos(cs[n]));
  }

  /** A field of a record that lies in a buffer reads as the value written, cut to its width. */
  lemma ReadField(buf: seq<byte>, a: nat, cs: seq<Campo>, j: nat, k: nat)
    requires Holds(buf, a, Codificar(cs)) && j < |cs| && Posicion(cs, j) == k
    ensures a + k + Ancho(cs[j]) <= |buf|
    ensures cs[j].C16? ==> GetU16(buf, a + k) == cs[j].v % 0x1_0000
    ensures cs[j].C32? ==> GetU32(buf, a + k) == cs[j].v % 0x1_0000_0000
  {
    CampoAt(cs, j);
    HoldsPart(buf, a, Codificar(cs), k, Octetos(cs[j]));
    FieldAt(buf, a + k, cs[j]);
  }

  lemma FieldAt(buf: seq<byte>, i: nat, c: Campo)
    requires Holds(buf, i, Octetos(c))
    ensures c.C16? ==> GetU16(buf, i) == c.v % 0x1_0000
    ensures c.C32? ==> GetU32(buf, i) == c.v % 0x1_0000_0000
  {
    FieldsRoundTrip(c.v);
    GetSlice(buf, Octetos(c), i, 0, Ancho(c));
  }

  /** Push the bytes of each field in order. */
  method Escribir(cs: seq<Campo>) returns (r: seq<byte>)
    ensures r == Codificar(cs)
  {
    r := [];
    for i := 0 to |cs|
      invariant r == Codificar(cs[..i])
    {
      assert cs[..i + 1][..i] == cs[..i];
      r := r + Octetos(cs[i]);
    }
    assert cs[..|cs|] == cs;
  }

  // === The writer ===

  function CamposLocal(f: Archivo): (cs: seq<Campo>)
    ensures |cs| == 11
  {
    [C32(FIRMA_LOCAL), C16(20), C16(0), C16(0), C16(0), C16(0),
     C32(Crc32(f.cuerpo)), C32(|f.cuerpo|), C32(|f.cuerpo|), C16(|f.nombre|), C16(0)]
  }

  function CamposCentral(f: Archivo, offset: nat): (cs: seq<Campo>)
    ensures |cs| == 17
  {
    [C32(FIRMA_CENTRAL), C16(20), C16(20), C16(0), C16(0), C16(0), C16(0),
     C32(Crc32(f.cuerpo)), C32(|f.cuerpo|), C32(|f.cuerpo|), C16(|f.nombre|),
     C16(0), C16(0), C16(0), C16(0), C32(0), C32(offset)]
  }

  function CamposFin(n: nat, tamCentral: nat, inicioCentral: nat): (cs: seq<Campo>)
    ensures |cs| == 8
  {
    [C32(FIRMA_FIN), C16(0), C16(0), C16(n), C16(n), C32(tamCentral), C32(inicioCentral), C16(0)]
  }

  lemma LocalPosiciones(f: Archivo)
    ensures var cs := CamposLocal(f); Posicion(cs, 9) == 26 && Posicion(cs, 10) == 28 && Posicion(cs, 11) == 30
  {
    var cs, t := CamposLocal(f), [0, 4, 6, 8, 10, 12, 14, 18, 22, 26, 28, 30];
    PosicionTable(cs, t, 9);
    PosicionTable(cs, t, 10);
    PosicionTable(cs, t, 11);
  }

  lemma CentralPosiciones(f: Archivo, offset: nat)
    ensures var cs := CamposCentral(f, offset);
            && Posicion(cs, 4) == 10 && Posicion(cs, 8) == 20 && Posicion(cs, 10) == 28 && Posicion(cs, 11) == 30
            && Posicion(cs, 12) == 32 && Posicion(cs, 16) == 42 && Posicion(cs, 17) == 46
  {
    var cs, t := CamposCentral(f, offset), [0, 4, 6, 8, 10, 12, 14, 16, 20, 24, 28, 30, 32, 34, 36, 38, 42, 46];
    PosicionTable(cs, t, 4);
    PosicionTable(cs, t, 8);
    PosicionTable(cs, t, 10);
    PosicionTable(cs, t, 11);
    PosicionTable(cs, t, 12);
    PosicionTable(cs, t, 16);
    PosicionTable(cs, t, 17);
  }

  lemma FinPosiciones(n: nat, tam: nat, inicio: nat)
    ensures var cs := CamposFin(n, tam, inicio); Posicion(cs, 4) == 10 && Posicion(cs, 6) == 16 && Posicion(cs, 8) == 22
  {
    var cs, t := CamposFin(n, tam, inicio), [0, 4, 6, 8, 10, 12, 16, 20, 22];
    PosicionTable(cs, t, 4);
    PosicionTable(cs, t, 6);
    PosicionTable(cs, t, 8);
  }

  function CabeceraLocal(f: Archivo): (r: seq<byte>)
    ensures |r| == 30
  {
    LocalPosiciones(f);
    Codificar(CamposLocal(f))
  }

  function CabeceraCentral(f: Archivo, offset: nat): (r: seq<byte>)
    ensures |r| == 46
  {
    CentralPosiciones(f, offset);
    Codificar(CamposCentral(f, offset))
  }

  function Fin(n: nat, tamCentral: nat, inicioCentral: nat): (r: seq<byte>)
    ensures |r| == 22
  {
    FinPosiciones(n, tamCentral, inicioCentral);
    Codificar(CamposFin(n, tamCentral, inicioCentral))
  }

  function Local(f: Archivo): (r: seq<byte>)
    ensures |r| == 30 + |f.nombre| + |f.cuerpo|
  {
    CabeceraLocal(f) + f.nombre + f.cuerpo
  }

  function Central(f: Archivo, offset: nat): (r: seq<byte>)
    ensures |r| == 46 + |f.nombre|
  {
    CabeceraCentral(f, offset) + f.nombre
  }

  /** What a Blob makes of its chunks. */
  function Junta(partes: seq<seq<byte>>): seq<byte>
  {
    if partes == [] then [] else Junta(partes[..|partes| - 1]) + partes[|partes| - 1]
  }

  lemma JuntaAppend(partes: seq<seq<byte>>, parte: seq<byte>)
    ensures Junta(partes + [parte]) == Junta(partes) + parte
  {
    assert (partes + [parte])[..|partes|] == partes;
  }

  function PartesLocales(fs: seq<Archivo>): (r: seq<seq<byte>>)
    ensures |r| == |fs|
  {
    seq(|fs|, i requires 0 <= i < |fs| => Local(fs[i]))
  }

  /** Where the local part of file i starts. */
  function Offset(fs: seq<Archivo>, i: nat): nat
    requires i <= |fs|
  {
    |Junta(PartesLocales(fs)[..i])|
  }

  /** The central directory: every entry holds the offset of its local header. */
  function PartesCentrales(fs: seq<Archivo>): (r: seq<seq<byte>>)
    ensures |r| == |fs|
  {
    seq(|fs|, i requires 0 <= i < |fs| => Central(fs[i], Offset(fs, i)))
  }

  function Locales(fs: seq<Archivo>): seq<byte> { Junta(PartesLocales(fs)) }

  function Centrales(fs: seq<Archivo>): seq<byte> { Junta(PartesCentrales(fs)) }

  function Zip(fs: seq<Archivo>): seq<byte>
  {
    Locales(fs) + Centrales(fs) + Fin(|fs|, |Centrales(fs)|, |Locales(fs)|)
  }

  /** The chunks of one file: the local header with name and body, and the central entry. */
  method EscribirArchivo(table: seq<nat>, f: Archivo, offset: nat) returns (l: seq<byte>, c: seq<byte>)
    requires IsTable(table)
    ensures l == Local(f) && c == Central(f, offset)
  {
    var crc := ComputeCrc32(table, f.cuerpo);
    l := Escribir([C32(FIRMA_LOCAL), C16(20), C16(0), C16(0), C16(0), C16(0),
      C32(crc), C32(|f.cuerpo|), C32(|f.cuerpo|), C16(|f.nombre|), C16(0)]);
    l := l + f.nombre + f.cuerpo;
    c := Escribir([C32(FIRMA_CENTRAL), C16(20), C16(20), C16(0), C16(0), C16(0), C16(0),
      C32(crc), C32(|f.cuerpo|), C32(|f.cuerpo|), C16(|f.nombre|),
      C16(0), C16(0), C16(0), C16(0), C32(0), C32(offset)]);
    c := c + f.nombre;
  }

  lemma {:induction false} JuntaConcat(x: seq<seq<byte>>, y: seq<seq<byte>>)
    ensures Junta(x + y) == Junta(x) + Junta(y)
  {
    if y == [] {
      assert x + y == x;
    } else {
      var y', last := y[..|y| - 1], y[|y| - 1];
      JuntaConcat(x, y');
      assert x + y == x + y' + [last];
      JuntaAppend(x + y', last);
    }
  }

  /** Every chunk of the directory is pushed and its length counted. */
  method PegarCentral(central: seq<seq<byte>>, datos: seq<seq<byte>>) returns (r: seq<seq<byte>>, tamCentral: nat)
    ensures r == datos + central && tamCentral == |Junta(central)|
  {
    r, tamCentral := datos, 0;
    for i := 0 to |central|
      invariant r == datos + central[..i] && tamCentral == |Junta(central[..i])|
    {
      assert central[..i + 1] == central[..i] + [central[i]];
      JuntaAppend(central[..i], central[i]);
      r, tamCentral := r + [central[i]], tamCentral + |central[i]|;
    }
    assert central[..|central|] == central;
  }

  lemma TakeStep<T>(s: seq<T>, i: nat)
    requires i < |s|
    ensures s[..i + 1] == s[..i] + [s[i]]
  {
  }

  lemma PartesAt(fs: seq<Archivo>, i: nat, offset: nat)
    requires i < |fs| && offset == |Junta(PartesLocales(fs)[..i])|
    ensures PartesLocales(fs)[i] == Local(fs[i]) && PartesCentrales(fs)[i] == Central(fs[i], offset)
  {
  }

  /** `zipArchivos`: chunks for the files, chunks for the directory, the end record. */
  method ZipArchivos(archivos: seq<Archivo>) returns (zip: seq<byte>)
    ensures zip == Zip(archivos)
  {
    var datos: seq<seq<byte>> := [];
    var central: seq<seq<byte>> := [];
    var offset := 0;
    var table := BuildTable();
    ghost var ls, cs := PartesLocales(archivos), PartesCentrales(archivos);
    for i := 0 to |archivos|
      invariant datos == ls[..i] && central == cs[..i]
      invariant offset == |Junta(ls[..i])|
    {
      var l, c := EscribirArchivo(table, archivos[i], offset);
      PartesAt(archivos, i, offset);
      JuntaAppend(datos, l);
      TakeStep(ls, i);
      TakeStep(cs, i);
      datos, central := datos + [l], central + [c];
      offset := offset + 30 + |archivos[i].nombre| + |archivos[i].cuerpo|;
    }
    assert datos == ls && central == cs;
    var inicioCentral, tamCentral := offset, 0;
    JuntaConcat(datos, central);
    datos, tamCentral := PegarCentral(central, datos);
    var fin := EscribirFin(|archivos|, tamCentral, inicioCentral);
    JuntaAppend(datos, fin);
    datos := datos + [fin];
    return Junta(datos);
  }

  method EscribirFin(n: nat, tamCentral: nat, inicioCentral: nat) returns (fin: seq<byte>)
    ensures fin == Fin(n, tamCentral, inicioCentral)
  {
    fin := Escribir([C32(FIRMA_FIN), C16(0), C16(0), C16(n), C16(n), C32(tamCentral), C32(inicioCentral), C16(0)]);
  }

  // === The reader ===

  /** The UTF-8 byte order mark. */
  const BOM: seq<byte> := [0xEF, 0xBB, 0xBF]

  predicate TieneBom(b: seq<byte>) { 3 <= |b| && b[..3] == BOM }

  /** `TextDecoder` on the UTF-8 of a string: one byte order mark at the start is dropped. */
  function Decodificar(b: seq<byte>): seq<byte> { if TieneBom(b) then b[3..] else b }

  /** `__proto__`. */
  const PROTO: seq<byte> := [95, 95, 112, 114, 111, 116, 111, 95, 95]

  /** `archivos[nombre] = texto` on a plain object: the setter of `__proto__` ignores a string. */
  function Guardar(archivos: map<seq<byte>, seq<byte>>, nombre: seq<byte>, texto: seq<byte>): map<seq<byte>, seq<byte>>
  {
    if nombre == PROTO then archivos else archivos[nombre := texto]
  }

  /** The last end signature at or before i, looking no further back than `desde`. */
  function BuscarFin(buf: seq<byte>, i: int, desde: nat): (fin: Option<nat>)
    requires i + 22 <= |buf|
    ensures fin.Some? ==> desde <= fin.value <= i && GetU32(buf, fin.value) == FIRMA_FIN
    ensures forall k :: desde <= k <= i && (fin.None? || k > fin.value) ==> GetU32(buf, k) != FIRMA_FIN
    decreases i - desde
  {
    if i < desde then None
    else if GetU32(buf, i) == FIRMA_FIN then Some(i)
    else BuscarFin(buf, i - 1, desde)
  }

  /** What a central entry says, and where the next one starts. */
  datatype Entrada = Entrada(nombre: seq<byte>, metodo: nat, tamC: nat, locOff: nat, siguiente: nat)

  function LeerCentral(buf: seq<byte>, off: nat): Result<Entrada>
  {
    if off + 4 > |buf| then Err(OutOfBounds)
    else if GetU32(buf, off) != FIRMA_CENTRAL then Err(RotoCentral)
    else if off + 46 > |buf| then Err(OutOfBounds)
    else
      var ln := GetU16(buf, off + 28);
      if off + 46 + ln > |buf| then Err(OutOfBounds)
      else Ok(Entrada(Decodificar(buf[off + 46..off + 46 + ln]), GetU16(buf, off + 10), GetU32(buf, off + 20),
        GetU32(buf, off + 42), off + 46 + ln + GetU16(buf, off + 30) + GetU16(buf, off + 32)))
  }

  /** The text behind the local header. */
  function LeerCuerpo(buf: seq<byte>, e: Entrada): Result<seq<byte>>
  {
    if e.locOff + 4 > |buf| then Err(OutOfBounds)
    else if GetU32(buf, e.locOff) != FIRMA_LOCAL then Err(RotoLocal(e.nombre))
    else if e.metodo != 0 then Err(VieneComprimido(e.nombre, e.metodo))
    else if e.locOff + 30 > |buf| then Err(OutOfBounds)
    else
      var ini := e.locOff + 30 + GetU16(buf, e.locOff + 26) + GetU16(buf, e.locOff + 28);
      if ini + e.tamC > |buf| then Err(OutOfBounds) else Ok(Decodificar(buf[ini..ini + e.tamC]))
  }

  /** One entry: the name, the body, and where the next entry starts. */
  function LeerEntrada(buf: seq<byte>, off: nat): Result<(Archivo, nat)>
  {
    match LeerCentral(buf, off)
    case Err(error) => Err(error)
    case Ok(e) =>
      match LeerCuerpo(buf, e)
      case Err(error) => Err(error)
      case Ok(cuerpo) => Ok((Archivo(e.nombre, cuerpo), e.siguiente))
  }

  /** The walk over `total` entries from `off` on, later names overwriting earlier ones. */
  function LeerEntradas(leer: Lector, off: nat, total: nat, archivos: map<seq<byte>, seq<byte>>)
      : Result<map<seq<byte>, seq<byte>>>
    decreases total
  {
    if total == 0 then Ok(archivos)
    else
      match leer(off)
      case Err(e) => Err(e)
      case Ok((f, next)) => LeerEntradas(leer, next, total - 1, Guardar(archivos, f.nombre, f.cuerpo))
  }

  type Lector = nat -> Result<(Archivo, nat)>

  function LectorDe(buf: seq<byte>): Lector
  {
    off => LeerEntrada(buf, off)
  }

  /** How far back the search goes: a comment holds at most 65536 bytes here. */
  function Desde(n: nat): nat
  {
    if n < 22 + 65536 then 0 else n - 22 - 65536
  }

  function Leido(buf: seq<byte>): Result<map<seq<byte>, seq<byte>>>
  {
    match BuscarFin(buf, |buf| - 22, Desde(|buf|))
    case None => Err(NoEsUnZip)
    case Some(fin) => LeerEntradas(LectorDe(buf), GetU32(buf, fin + 16), GetU16(buf, fin + 10), map[])
  }

  /** The backward search of `leerZip`: -1 when there is no end record. */
  method HallarFin(buf: seq<byte>) returns (fin: int)
    ensures BuscarFin(buf, |buf| - 22, Desde(|buf|)) == if 0 <= fin then Some(fin) else None
  {
    fin := -1;
    var i, desde := |buf| - 22, Desde(|buf|);
    while i >= desde
      invariant i + 22 <= |buf| && fin == -1
      invariant BuscarFin(buf, |buf| - 22, desde) == BuscarFin(buf, i, desde)
      decreases i - desde
    {
      if GetU32(buf, i) == FIRMA_FIN {
        return i;
      }
      i := i - 1;
    }
  }

  /** `leerZip`. */
  method LeerZip(buf: seq<byte>) returns (r: Result<map<seq<byte>, seq<byte>>>)
    ensures r == Leido(buf)
  {
    var fin := HallarFin(buf);
    if fin < 0 {
      return Err(NoEsUnZip);
    }
    var total := GetU16(buf, fin + 10);
    var off := GetU32(buf, fin + 16);
    r := LeerTodas(LectorDe(buf), off, total);
  }

  /** The loop over the central directory. */
  method LeerTodas(leer: Lector, inicio: nat, total: nat) returns (r: Result<map<seq<byte>, seq<byte>>>)
    ensures r == LeerEntradas(leer, inicio, total, map[])
  {
    var off := inicio;
    var archivos: map<seq<byte>, seq<byte>> := map[];
    for k := 0 to total
      invariant LeerEntradas(leer, off, total - k, archivos) == LeerEntradas(leer, inicio, total, map[])
    {
      match leer(off) {
        case Err(e) => return Err(e);
        case Ok((f, next)) =>
          EntriesStep(leer, off, total - k, archivos, f, next);
          archivos := Guardar(archivos, f.nombre, f.cuerpo);
          off := next;
      }
    }
    return Ok(archivos);
  }

  // === Where the parts lie ===

  /** A field that holds its value whole. */
  lemma ReadWhole(buf: seq<byte>, a: nat, cs: seq<Campo>, j: nat, k: nat)
    requires Holds(buf, a, Codificar(cs)) && j < |cs| && Posicion(cs, j) == k
    requires cs[j].v < if cs[j].C16? then 0x1_0000 else 0x1_0000_0000
    ensures a + k + Ancho(cs[j]) <= |buf|
    ensures cs[j].C16? ==> GetU16(buf, a + k) == cs[j].v
    ensures cs[j].C32? ==> GetU32(buf, a + k) == cs[j].v
  {
    ReadField(buf, a, cs, j, k);
    ModSmall(cs[j].v, if cs[j].C16? then 0x1_0000 else 0x1_0000_0000);
  }

  lemma ModSmall(v: nat, m: nat)
    requires v < m
    ensures v % m == v
  {
  }

  lemma CentralReadSizes(buf: seq<byte>, off: nat, f: Archivo, locOff: nat)
    requires |f.nombre| < 0x1_0000 && |f.cuerpo| < 0x1_0000_0000
    requires Holds(buf, off, Codificar(CamposCentral(f, locOff)))
    ensures off + 30 <= |buf|
    ensures GetU32(buf, off) == FIRMA_CENTRAL && GetU16(buf, off + 10) == 0
    ensures GetU32(buf, off + 20) == |f.cuerpo| && GetU16(buf, off + 28) == |f.nombre|
  {
    var cs := CamposCentral(f, locOff);
    CentralPosiciones(f, locOff);
    ReadWhole(buf, off, cs, 0, 0);
    ReadWhole(buf, off, cs, 4, 10);
    ReadWhole(buf, off, cs, 8, 20);
    ReadWhole(buf, off, cs, 10, 28);
  }

  lemma CentralReadRest(buf: seq<byte>, off: nat, f: Archivo, locOff: nat)
    requires locOff < 0x1_0000_0000
    requires Holds(buf, off, Codificar(CamposCentral(f, locOff)))
    ensures off + 46 <= |buf|
    ensures GetU16(buf, off + 30) == 0 && GetU16(buf, off + 32) == 0 && GetU32(buf, off + 42) == locOff
  {
    var cs := CamposCentral(f, locOff);
    CentralPosiciones(f, locOff);
    ReadWhole(buf, off, cs, 11, 30);
    ReadWhole(buf, off, cs, 12, 32);
    ReadWhole(buf, off, cs, 16, 42);
  }

  lemma LocalRead(buf: seq<byte>, off: nat, f: Archivo)
    requires |f.nombre| < 0x1_0000
    requires Holds(buf, off, Codificar(CamposLocal(f)))
    ensures off + 30 <= |buf|
    ensures GetU32(buf, off) == FIRMA_LOCAL && GetU16(buf, off + 26) == |f.nombre| && GetU16(buf, off + 28) == 0
  {
    var cs := CamposLocal(f);
    LocalPosiciones(f);
    ReadWhole(buf, off, cs, 0, 0);
    ReadWhole(buf, off, cs, 9, 26);
    ReadWhole(buf, off, cs, 10, 28);
  }

  lemma FinRead(buf: seq<byte>, off: nat, n: nat, tam: nat, inicio: nat)
    requires Holds(buf, off, Fin(n, tam, inicio))
    ensures off + 22 <= |buf|
    ensures GetU32(buf, off) == FIRMA_FIN && GetU16(buf, off + 10) == n % 0x1_0000
    ensures GetU32(buf, off + 16) == inicio % 0x1_0000_0000
  {
    var cs := CamposFin(n, tam, inicio);
    FinPosiciones(n, tam, inicio);
    ReadField(buf, off, cs, 0, 0);
    ReadField(buf, off, cs, 4, 10);
    ReadField(buf, off, cs, 6, 16);
  }

  lemma CentralParts(buf: seq<byte>, off: nat, f: Archivo, locOff: nat)
    requires Holds(buf, off, Central(f, locOff))
    ensures Holds(buf, off, CabeceraCentral(f, locOff)) && Holds(buf, off + 46, f.nombre)
  {
    HoldsConcat(CabeceraCentral(f, locOff), f.nombre);
    HoldsPart(buf, off, Central(f, locOff), 0, CabeceraCentral(f, locOff));
    HoldsPart(buf, off, Central(f, locOff), 46, f.nombre);
  }

  lemma LocalParts(buf: seq<byte>, off: nat, f: Archivo)
    requires Holds(buf, off, Local(f))
    ensures Holds(buf, off, CabeceraLocal(f)) && Holds(buf, off + 30 + |f.nombre|, f.cuerpo)
  {
    var l := CabeceraLocal(f);
    ThreeParts(l, f.nombre, f.cuerpo);
    HoldsPart(buf, off, Local(f), 0, l);
    HoldsPart(buf, off, Local(f), 30 + |f.nombre|, f.cuerpo);
  }

  lemma ReadsCentral(buf: seq<byte>, f: Archivo, off: nat, locOff: nat)
    requires |f.nombre| < 0x1_0000 && |f.cuerpo| < 0x1_0000_0000 && locOff < 0x1_0000_0000
    requires Holds(buf, off, Central(f, locOff))
    ensures LeerCentral(buf, off) == Ok(Entrada(Decodificar(f.nombre), 0, |f.cuerpo|, locOff, off + 46 + |f.nombre|))
  {
    CentralParts(buf, off, f, locOff);
    CentralReadSizes(buf, off, f, locOff);
    CentralReadRest(buf, off, f, locOff);
    HoldsSlice(buf, off + 46, f.nombre);
    CentralFrom(buf, off, f.nombre, |f.cuerpo|, locOff);
  }

  lemma CentralFrom(buf: seq<byte>, off: nat, nombre: seq<byte>, tamC: nat, locOff: nat)
    requires off + 46 + |nombre| <= |buf| && buf[off + 46..off + 46 + |nombre|] == nombre
    requires GetU32(buf, off) == FIRMA_CENTRAL && GetU16(buf, off + 10) == 0 && GetU32(buf, off + 20) == tamC
    requires GetU16(buf, off + 28) == |nombre| && GetU16(buf, off + 30) == 0 && GetU16(buf, off + 32) == 0
    requires GetU32(buf, off + 42) == locOff
    ensures LeerCentral(buf, off) == Ok(Entrada(Decodificar(nombre), 0, tamC, locOff, off + 46 + |nombre|))
  {
  }

  lemma ReadsBody(buf: seq<byte>, f: Archivo, e: Entrada)
    requires |f.nombre| < 0x1_0000 && Holds(buf, e.locOff, Local(f)) && e.metodo == 0 && e.tamC == |f.cuerpo|
    ensures LeerCuerpo(buf, e) == Ok(Decodificar(f.cuerpo))
  {
    LocalParts(buf, e.locOff, f);
    LocalRead(buf, e.locOff, f);
    HoldsSlice(buf, e.locOff + 30 + |f.nombre|, f.cuerpo);
    BodyFrom(buf, e, e.locOff + 30 + |f.nombre|, f.cuerpo);
  }

  lemma BodyFrom(buf: seq<byte>, e: Entrada, ini: nat, cuerpo: seq<byte>)
    requires e.locOff + 30 <= |buf| && GetU32(buf, e.locOff) == FIRMA_LOCAL && e.metodo == 0 && e.tamC == |cuerpo|
    requires ini == e.locOff + 30 + GetU16(buf, e.locOff + 26) + GetU16(buf, e.locOff + 28)
    requires ini + |cuerpo| <= |buf| && buf[ini..ini + |cuerpo|] == cuerpo
    ensures LeerCuerpo(buf, e) == Ok(Decodificar(cuerpo))
  {
  }

  /** The reader recovers an entry from any buffer that holds it and its local part at the offset it names. */
  lemma EntryRoundTrip(buf: seq<byte>, f: Archivo, off: nat, locOff: nat)
    requires |f.nombre| < 0x1_0000 && |f.cuerpo| < 0x1_0000_0000 && locOff < 0x1_0000_0000
    requires Holds(buf, off, Central(f, locOff)) && Holds(buf, locOff, Local(f))
    ensures Leads(LectorDe(buf), off, Decodificado(f), off + 46 + |f.nombre|)
  {
    var e := Entrada(Decodificar(f.nombre), 0, |f.cuerpo|, locOff, off + 46 + |f.nombre|);
    ReadsCentral(buf, f, off, locOff);
    ReadsBody(buf, f, e);
    LeadsFrom(buf, off, Decodificado(f), off + 46 + |f.nombre|);
  }

  lemma LeadsFrom(buf: seq<byte>, off: nat, f: Archivo, next: nat)
    requires LeerEntrada(buf, off) == Ok((f, next))
    ensures Leads(LectorDe(buf), off, f, next)
  {
  }

  lemma HoldsSlice(buf: seq<byte>, a: nat, part: seq<byte>)
    requires Holds(buf, a, part)
    ensures buf[a..a + |part|] == part
  {
  }

  /** Where part i lies in the joined parts. */
  lemma {:induction false} PartAt(partes: seq<seq<byte>>, i: nat)
    requires i < |partes|
    ensures Holds(Junta(partes), |Junta(partes[..i])|, partes[i])
    ensures |Junta(partes[..i + 1])| == |Junta(partes[..i])| + |partes[i]|
  {
    var n := |partes| - 1;
    HoldsConcat(Junta(partes[..n]), partes[n]);
    if i < n {
      PartAt(partes[..n], i);
      assert partes[..n][..i] == partes[..i] && partes[..n][..i + 1] == partes[..i + 1];
      HoldsLonger(Junta(partes[..n]), partes[n], |Junta(partes[..i])|, partes[i]);
    } else {
      assert partes[..i + 1] == partes;
    }
  }

  lemma HoldsLonger(x: seq<byte>, y: seq<byte>, k: nat, part: seq<byte>)
    requires Holds(x, k, part)
    ensures Holds(x + y, k, part)
  {
  }

  lemma PartsOfZip(fs: seq<Archivo>)
    ensures Holds(Zip(fs), 0, Locales(fs))
    ensures Holds(Zip(fs), |Locales(fs)|, Centrales(fs))
    ensures Holds(Zip(fs), |Zip(fs)| - 22, Fin(|fs|, |Centrales(fs)|, |Locales(fs)|))
  {
    ThreeParts(Locales(fs), Centrales(fs), Fin(|fs|, |Centrales(fs)|, |Locales(fs)|));
  }

  lemma ThreeParts(x: seq<byte>, y: seq<byte>, z: seq<byte>)
    ensures Holds(x + y + z, 0, x) && Holds(x + y + z, |x|, y) && Holds(x + y + z, |x| + |y|, z)
  {
  }

  // === What the reader finds in what the writer wrote ===

  /** The map of a list of files: of equal names the last one counts. */
  function Mapa(fs: seq<Archivo>): map<seq<byte>, seq<byte>>
  {
    if fs == [] then map[]
    else Mapa(fs[..|fs| - 1])[fs[|fs| - 1].nombre := fs[|fs| - 1].cuerpo]
  }

  /** A file as a reader sees it. */
  function Decodificado(f: Archivo): Archivo { Archivo(Decodificar(f.nombre), Decodificar(f.cuerpo)) }

  function Decodificados(fs: seq<Archivo>): (r: seq<Archivo>)
    ensures |r| == |fs|
  {
    seq(|fs|, i requires 0 <= i < |fs| => Decodificado(fs[i]))
  }

  /** The object that files are put into one by one. */
  function Objeto(fs: seq<Archivo>): map<seq<byte>, seq<byte>>
  {
    if fs == [] then map[]
    else Guardar(Objeto(fs[..|fs| - 1]), fs[|fs| - 1].nombre, fs[|fs| - 1].cuerpo)
  }

  lemma ObjetoStep(fs: seq<Archivo>, i: nat)
    requires i < |fs|
    ensures Objeto(fs[..i + 1]) == Guardar(Objeto(fs[..i]), fs[i].nombre, fs[i].cuerpo)
  {
    assert fs[..i + 1][..i] == fs[..i];
  }

  /** Names fit 16 bits and the local parts 32: what the format's fields can say. */
  ghost predicate FitsFields(fs: seq<Archivo>)
  {
    |Locales(fs)| < 0x1_0000_0000 && forall i :: 0 <= i < |fs| ==> |fs[i].nombre| < 0x1_0000
  }

  /** Reading at `off` yields `f` and goes on at `next`. */
  ghost predicate Leads(leer: Lector, off: nat, f: Archivo, next: nat)
  {
    var r := leer(off);
    r.Ok? && r.value.0 == f && r.value.1 == next
  }

  ghost predicate LeadsAt(leer: Lector, pos: seq<nat>, fs: seq<Archivo>, k: nat)
    requires k < |fs| && |pos| == |fs| + 1
  {
    Leads(leer, pos[k], fs[k], pos[k + 1])
  }

  ghost predicate AllLead(leer: Lector, pos: seq<nat>, fs: seq<Archivo>)
  {
    |pos| == |fs| + 1 && forall k :: 0 <= k < |fs| ==> LeadsAt(leer, pos, fs, k)
  }

  /** Where the central entries of an archive start, and where the last one ends. */
  function Inicios(fs: seq<Archivo>): (pos: seq<nat>)
    ensures |pos| == |fs| + 1
  {
    seq(|fs| + 1, k requires 0 <= k <= |fs| => |Locales(fs)| + |Junta(PartesCentrales(fs)[..k])|)
  }

  lemma EntryPlaces(fs: seq<Archivo>, i: nat, locOff: nat)
    requires i < |fs| && locOff == Offset(fs, i)
    ensures Holds(Zip(fs), locOff, Local(fs[i]))
    ensures Holds(Zip(fs), Inicios(fs)[i], Central(fs[i], locOff))
    ensures Inicios(fs)[i + 1] == Inicios(fs)[i] + 46 + |fs[i].nombre|
    ensures locOff + 30 + |fs[i].nombre| + |fs[i].cuerpo| <= |Locales(fs)|
  {
    PartAt(PartesLocales(fs), i);
    PartAt(PartesCentrales(fs), i);
    PartsOfZip(fs);
    HoldsPart(Zip(fs), 0, Locales(fs), locOff, Local(fs[i]));
    HoldsPart(Zip(fs), |Locales(fs)|, Centrales(fs), |Junta(PartesCentrales(fs)[..i])|, Central(fs[i], locOff));
  }

  lemma EntryOfZip(fs: seq<Archivo>, i: nat)
    requires FitsFields(fs) && i < |fs|
    ensures Leads(LectorDe(Zip(fs)), Inicios(fs)[i], Decodificado(fs[i]), Inicios(fs)[i + 1])
  {
    EntryPlaces(fs, i, Offset(fs, i));
    EntryRoundTrip(Zip(fs), fs[i], Inicios(fs)[i], Offset(fs, i));
  }

  lemma AllEntries(fs: seq<Archivo>)
    requires FitsFields(fs)
    ensures AllLead(LectorDe(Zip(fs)), Inicios(fs), Decodificados(fs))
  {
    forall k | 0 <= k < |fs| ensures LeadsAt(LectorDe(Zip(fs)), Inicios(fs), Decodificados(fs), k) {
      EntryOfZip(fs, k);
    }
  }

  lemma EntriesStep(leer: Lector, off: nat, total: nat, m: map<seq<byte>, seq<byte>>, f: Archivo, next: nat)
    requires total > 0 && Leads(leer, off, f, next)
    ensures LeerEntradas(leer, off, total, m) == LeerEntradas(leer, next, total - 1, Guardar(m, f.nombre, f.cuerpo))
  {
  }

  /** The central walk over any buffer in which each entry leads to the next. */
  lemma {:induction false} EntriesWalk(leer: Lector, fs: seq<Archivo>, pos: seq<nat>, i: nat, total: nat,
      m: map<seq<byte>, seq<byte>>)
    requires AllLead(leer, pos, fs) && i + total <= |fs| && m == Objeto(fs[..i])
    ensures LeerEntradas(leer, pos[i], total, m).Ok?
    ensures LeerEntradas(leer, pos[i], total, m).value == Objeto(fs[..i + total])
    decreases total
  {
    if total > 0 {
      assert LeadsAt(leer, pos, fs, i);
      var m' := Guardar(m, fs[i].nombre, fs[i].cuerpo);
      EntriesStep(leer, pos[i], total, m, fs[i], pos[i + 1]);
      ObjetoStep(fs, i);
      EntriesWalk(leer, fs, pos, i + 1, total - 1, m');
      assert LeerEntradas(leer, pos[i], total, m) == LeerEntradas(leer, pos[i + 1], total - 1, m');
    }
  }

  /** The search from the back stops at once: the end record is the last 22 bytes. */
  lemma EndOfZip(fs: seq<Archivo>)
    requires FitsFields(fs)
    ensures EndsAt(Zip(fs), Inicios(fs)[0], |fs| % 0x1_0000)
  {
    PartsOfZip(fs);
    ModSmall(|Locales(fs)|, 0x1_0000_0000);
    assert PartesCentrales(fs)[..0] == [];
    EndAtEnd(Zip(fs), |fs|, |Centrales(fs)|, |Locales(fs)|);
  }

  lemma EndAtEnd(buf: seq<byte>, n: nat, tam: nat, inicio: nat)
    requires 22 <= |buf| && Holds(buf, |buf| - 22, Fin(n, tam, inicio)) && inicio % 0x1_0000_0000 == inicio
    ensures EndsAt(buf, inicio, n % 0x1_0000)
  {
    FinRead(buf, |buf| - 22, n, tam, inicio);
    assert BuscarFin(buf, |buf| - 22, Desde(|buf|)) == Some(|buf| - 22);
  }

  ghost predicate ReadsAs(buf: seq<byte>, m: map<seq<byte>, seq<byte>>)
  {
    Leido(buf).Ok? && Leido(buf).value == m
  }

  /** The search finds an end record that names this directory start and this count. */
  ghost predicate EndsAt(buf: seq<byte>, off: nat, total: nat)
  {
    var fin := BuscarFin(buf, |buf| - 22, Desde(|buf|));
    fin.Some? && GetU32(buf, fin.value + 16) == off && GetU16(buf, fin.value + 10) == total
  }

  lemma WalkFromEnd(buf: seq<byte>, fs: seq<Archivo>, pos: seq<nat>, n: nat)
    requires AllLead(LectorDe(buf), pos, fs) && n <= |fs| && EndsAt(buf, pos[0], n)
    ensures ReadsAs(buf, Objeto(fs[..n]))
  {
    EntriesWalk(LectorDe(buf), fs, pos, 0, n, map[]);
    LeidoFrom(buf, pos[0], n);
  }

  lemma LeidoFrom(buf: seq<byte>, off: nat, total: nat)
    requires EndsAt(buf, off, total)
    ensures Leido(buf) == LeerEntradas(LectorDe(buf), off, total, map[])
  {
  }

  /** Reading a written archive gives the object of the decoded files, as many as the 16-bit count says. */
  lemma ReadsWhatWasWritten(fs: seq<Archivo>, n: nat)
    requires FitsFields(fs) && n <= |fs| && n == |fs| % 0x1_0000
    ensures ReadsAs(Zip(fs), Objeto(Decodificados(fs)[..n]))
  {
    EndOfZip(fs);
    AllEntries(fs);
    WalkFromEnd(Zip(fs), Decodificados(fs), Inicios(fs), n);
  }

  ghost predicate DistinctNames(fs: seq<Archivo>)
  {
    forall i, j :: 0 <= i < j < |fs| ==> fs[i].nombre != fs[j].nombre
  }

  /** With distinct names the map has each body under its name and nothing else. */
  lemma {:induction false} MapaOfDistinct(fs: seq<Archivo>)
    requires DistinctNames(fs)
    ensures |Mapa(fs)| == |fs|
    ensures forall i :: 0 <= i < |fs| ==> fs[i].nombre in Mapa(fs) && Mapa(fs)[fs[i].nombre] == fs[i].cuerpo
    ensures forall k :: k in Mapa(fs) ==> exists i :: 0 <= i < |fs| && fs[i].nombre == k
  {
    if fs != [] {
      var n := |fs| - 1;
      MapaOfDistinct(fs[..n]);
      assert fs[n].nombre !in Mapa(fs[..n]);
      MapaOneMore(fs, Mapa(fs[..n]));
    }
  }

  lemma {:induction false} MapaOneMore(fs: seq<Archivo>, m: map<seq<byte>, seq<byte>>)
    requires fs != [] && m == Mapa(fs[..|fs| - 1]) && fs[|fs| - 1].nombre !in m
    requires forall i :: 0 <= i < |fs| - 1 ==> fs[i].nombre in m && m[fs[i].nombre] == fs[i].cuerpo
    requires forall k :: k in m ==> exists i :: 0 <= i < |fs| - 1 && fs[i].nombre == k
    ensures |Mapa(fs)| == |m| + 1
    ensures forall i :: 0 <= i < |fs| ==> fs[i].nombre in Mapa(fs) && Mapa(fs)[fs[i].nombre] == fs[i].cuerpo
    ensures forall k :: k in Mapa(fs) ==> exists i :: 0 <= i < |fs| && fs[i].nombre == k
  {
    assert Mapa(fs) == m[fs[|fs| - 1].nombre := fs[|fs| - 1].cuerpo];
  }

  lemma MapaSize(fs: seq<Archivo>)
    requires DistinctNames(fs)
    ensures |Mapa(fs)| == |fs|
  {
    MapaOfDistinct(fs);
  }

  /** The object has at most one key a file, only names of the files, and never `__proto__`. */
  lemma {:induction false} ObjetoKeys(fs: seq<Archivo>)
    ensures |Objeto(fs)| <= |fs| && PROTO !in Objeto(fs)
    ensures forall k :: k in Objeto(fs) ==> exists i :: 0 <= i < |fs| && fs[i].nombre == k
  {
    if fs != [] {
      var n := |fs| - 1;
      ObjetoKeys(fs[..n]);
      forall k | k in Objeto(fs) ensures exists i :: 0 <= i < |fs| && fs[i].nombre == k {
        if k != fs[n].nombre {
          var i :| 0 <= i < n && fs[..n][i].nombre == k;
          assert fs[i].nombre == k;
        }
      }
    }
  }

  lemma {:induction false} ObjetoIsMapa(fs: seq<Archivo>)
    requires forall i :: 0 <= i < |fs| ==> fs[i].nombre != PROTO
    ensures Objeto(fs) == Mapa(fs)
  {
    if fs != [] {
      ObjetoIsMapa(fs[..|fs| - 1]);
    }
  }

  // === The round trip ===

  /** Nothing about the file is lost on the way: no byte order mark to drop, and not the one name that a plain object
      does not take. */
  predicate Fiel(f: Archivo) { !TieneBom(f.nombre) && !TieneBom(f.cuerpo) && f.nombre != PROTO }

  /** The longest of the names that begin with a mark. */
  lemma {:induction false} LongestMarked(fs: seq<Archivo>, i: nat) returns (m: nat)
    requires i < |fs| && TieneBom(fs[i].nombre)
    ensures m < |fs| && TieneBom(fs[m].nombre)
    ensures forall j :: 0 <= j < |fs| && TieneBom(fs[j].nombre) ==> |fs[j].nombre| <= |fs[m].nombre|
  {
    m := i;
    for k := 0 to |fs|
      invariant m < |fs| && TieneBom(fs[m].nombre)
      invariant forall j :: 0 <= j < k && TieneBom(fs[j].nombre) ==> |fs[j].nombre| <= |fs[m].nombre|
    {
      if TieneBom(fs[k].nombre) && |fs[k].nombre| > |fs[m].nombre| {
        m := k;
      }
    }
  }

  /** A name that begins with a mark and comes back has come from a longer one. */
  lemma {:induction false} MarkedFromLonger(fs: seq<Archivo>, m: nat) returns (j: nat)
    requires DistinctNames(fs) && m < |fs| && TieneBom(fs[m].nombre)
    requires fs[m].nombre in Objeto(Decodificados(fs))
    ensures j < |fs| && TieneBom(fs[j].nombre) && |fs[j].nombre| > |fs[m].nombre|
  {
    ObjetoKeys(Decodificados(fs));
    j :| 0 <= j < |fs| && Decodificados(fs)[j].nombre == fs[m].nombre;
    assert Decodificar(fs[j].nombre) == fs[m].nombre;
  }

  /** If every name comes back, none begins with a mark: the longest that does would have come from a longer one. */
  lemma {:induction false} NoMarkedName(fs: seq<Archivo>, i: nat)
    requires DistinctNames(fs) && Objeto(Decodificados(fs)) == Mapa(fs) && i < |fs|
    ensures !TieneBom(fs[i].nombre)
  {
    if TieneBom(fs[i].nombre) {
      var m := LongestMarked(fs, i);
      MapaOfDistinct(fs);
      var j := MarkedFromLonger(fs, m);
      assert false;
    }
  }

  lemma {:induction false} FaithfulSame(fs: seq<Archivo>)
    requires forall i :: 0 <= i < |fs| ==> Fiel(fs[i])
    ensures Decodificados(fs) == fs && Objeto(fs) == Mapa(fs)
  {
    ObjetoIsMapa(fs);
  }

  lemma {:induction false} SameNames(fs: seq<Archivo>)
    requires DistinctNames(fs) && forall i :: 0 <= i < |fs| ==> !TieneBom(fs[i].nombre) && fs[i].nombre != PROTO
    requires Objeto(Decodificados(fs)) == Mapa(fs)
    ensures forall i :: 0 <= i < |fs| ==> !TieneBom(fs[i].cuerpo)
  {
    var ds := Decodificados(fs);
    assert forall i :: 0 <= i < |fs| ==> ds[i].nombre == fs[i].nombre;
    ObjetoIsMapa(ds);
    MapaOfDistinct(fs);
    MapaOfDistinct(ds);
    forall i | 0 <= i < |fs| ensures !TieneBom(fs[i].cuerpo) {
      assert Mapa(ds)[ds[i].nombre] == ds[i].cuerpo && Mapa(fs)[fs[i].nombre] == fs[i].cuerpo;
    }
  }

  /** All comes back exactly when every file is faithful. */
  lemma {:induction false} SameMapIff(fs: seq<Archivo>)
    requires DistinctNames(fs)
    ensures Objeto(Decodificados(fs)) == Mapa(fs) <==> forall i :: 0 <= i < |fs| ==> Fiel(fs[i])
  {
    if Objeto(Decodificados(fs)) == Mapa(fs) {
      MapaOfDistinct(fs);
      ObjetoKeys(Decodificados(fs));
      forall i | 0 <= i < |fs| ensures !TieneBom(fs[i].nombre) && fs[i].nombre != PROTO {
        NoMarkedName(fs, i);
        assert fs[i].nombre in Mapa(fs);
      }
      SameNames(fs);
    } else if forall i :: 0 <= i < |fs| ==> Fiel(fs[i]) {
      FaithfulSame(fs);
    }
  }

  lemma CountArithmetic(total: nat, n: nat)
    requires n == total % 0x1_0000
    ensures n <= total && (n == total <==> total < 0x1_0000)
  {
  }

  lemma ReadsOnlyOne(buf: seq<byte>, m: map<seq<byte>, seq<byte>>, m': map<seq<byte>, seq<byte>>)
    requires ReadsAs(buf, m)
    ensures ReadsAs(buf, m') <==> m == m'
  {
  }

  lemma ReadsAll(fs: seq<Archivo>)
    requires FitsFields(fs) && |fs| < 0x1_0000
    ensures ReadsAs(Zip(fs), Objeto(Decodificados(fs)))
  {
    CountArithmetic(|fs|, |fs| % 0x1_0000);
    ReadsWhatWasWritten(fs, |fs|);
    assert Decodificados(fs)[..|fs|] == Decodificados(fs);
  }

  lemma AllReadIff(fs: seq<Archivo>)
    requires FitsFields(fs) && DistinctNames(fs) && |fs| < 0x1_0000
    ensures ReadsAs(Zip(fs), Mapa(fs)) <==> forall i :: 0 <= i < |fs| ==> Fiel(fs[i])
  {
    ReadsAll(fs);
    ReadsOnlyOne(Zip(fs), Objeto(Decodificados(fs)), Mapa(fs));
    SameMapIff(fs);
  }

  lemma SomeCut(fs: seq<Archivo>)
    requires FitsFields(fs) && DistinctNames(fs) && |fs| >= 0x1_0000
    ensures !ReadsAs(Zip(fs), Mapa(fs))
  {
    var n := |fs| % 0x1_0000;
    CountArithmetic(|fs|, n);
    ReadsWhatWasWritten(fs, n);
    ObjetoKeys(Decodificados(fs)[..n]);
    MapaSize(fs);
  }

  /** The round trip: exactly the map of the written files (see MapaOfDistinct) comes back if and only if the 16-bit
      count can hold their number, none is named `__proto__`, and no name and no body begins with a byte order
      mark. */
  lemma ZipRoundTrip(fs: seq<Archivo>)
    requires FitsFields(fs) && DistinctNames(fs)
    ensures ReadsAs(Zip(fs), Mapa(fs)) <==> |fs| < 0x1_0000 && forall i :: 0 <= i < |fs| ==> Fiel(fs[i])
  {
    if |fs| < 0x1_0000 {
      AllReadIff(fs);
    } else {
      SomeCut(fs);
    }
  }

  // === Archives that do not come back ===

  lemma {:induction false} LocalesAppend(fs: seq<Archivo>, f: Archivo)
    ensures |Locales(fs + [f])| == |Locales(fs)| + 30 + |f.nombre| + |f.cuerpo|
  {
    assert PartesLocales(fs + [f]) == PartesLocales(fs) + [Local(f)];
    JuntaAppend(PartesLocales(fs), Local(f));
  }

  /** With parts of no more than 100 bytes each, no field overflows. */
  lemma {:induction false} SmallLocales(fs: seq<Archivo>)
    requires forall i :: 0 <= i < |fs| ==> |fs[i].nombre| + |fs[i].cuerpo| <= 70
    ensures |Locales(fs)| <= 100 * |fs|
  {
    if fs != [] {
      var n := |fs| - 1;
      SmallLocales(fs[..n]);
      assert fs == fs[..n] + [fs[n]];
      LocalesAppend(fs[..n], fs[n]);
    }
  }

  lemma {:induction false} OneFile(f: Archivo)
    requires |f.nombre| < 0x1_0000 && |f.cuerpo| < 0x1_0000
    ensures FitsFields([f]) && DistinctNames([f])
    ensures ReadsAs(Zip([f]), Guardar(map[], Decodificar(f.nombre), Decodificar(f.cuerpo)))
  {
    LocalesAppend([], f);
    assert [] + [f] == [f] && PartesLocales([]) == [];
    ReadsWhatWasWritten([f], 1);
    assert Decodificados([f])[..1] == [Decodificado(f)];
    ObjetoStep([Decodificado(f)], 0);
    assert [Decodificado(f)][..1] == [Decodificado(f)];
  }

  /** One file named `__proto__`: nothing comes back. */
  lemma {:induction false} ProtoIsLost(cuerpo: seq<byte>)
    requires |cuerpo| < 0x1_0000
    ensures var fs := [Archivo(PROTO, cuerpo)]; FitsFields(fs) && DistinctNames(fs) && ReadsAs(Zip(fs), map[])
  {
    OneFile(Archivo(PROTO, cuerpo));
    assert PROTO[..3][0] == 95 && BOM[0] == 0xEF;
    assert Decodificar(PROTO) == PROTO;
  }

  /** One file whose text begins with a byte order mark: the text comes back without it. */
  lemma {:induction false} MarkIsLost(nombre: seq<byte>, cuerpo: seq<byte>)
    requires |nombre| < 0x1_0000 && |cuerpo| < 0xFFF0 && nombre != PROTO && !TieneBom(nombre)
    ensures var fs := [Archivo(nombre, BOM + cuerpo)];
            FitsFields(fs) && DistinctNames(fs) && ReadsAs(Zip(fs), map[nombre := cuerpo])
  {
    OneFile(Archivo(nombre, BOM + cuerpo));
    assert (BOM + cuerpo)[..3] == BOM && (BOM + cuerpo)[3..] == cuerpo;
  }

  /** The empty file with number i, for numbers of 16 bits. */
  function Numerado(i: nat): Archivo
    requires i < 0x1_0000
  {
    Archivo([48 + i / 4096, 48 + i / 64 % 64, 48 + i % 64], [])
  }

  function TodosLosNumeros(): (fs: seq<Archivo>)
    ensures |fs| == 0x1_0000
  {
    seq(0x1_0000, i requires 0 <= i < 0x1_0000 => Numerado(i))
  }

  /** 65536 empty files with names of three letters: the count says zero, and nothing comes back. */
  lemma {:induction false} AllNumbersAreLost()
    ensures var fs := TodosLosNumeros(); FitsFields(fs) && DistinctNames(fs) && ReadsAs(Zip(fs), map[])
  {
    var fs := TodosLosNumeros();
    forall i, j | 0 <= i < j < |fs| ensures fs[i].nombre != fs[j].nombre {
      assert fs[i] == Numerado(i) && fs[j] == Numerado(j);
      DistinctNumbers(i, j);
    }
    SmallLocales(fs);
    ReadsWhatWasWritten(fs, 0);
    assert Decodificados(fs)[..0] == [];
  }

  lemma {:induction false} DistinctNumbers(i: nat, j: nat)
    requires i < j < 0x1_0000
    ensures Numerado(i).nombre != Numerado(j).nombre
  {
    assert i / 64 == i / 4096 * 64 + i / 64 % 64 && j / 64 == j / 4096 * 64 + j / 64 % 64;
    assert Numerado(i).nombre[0] == 48 + i / 4096 && Numerado(j).nombre[0] == 48 + j / 4096;
    assert Numerado(i).nombre[1] == 48 + i / 64 % 64 && Numerado(j).nombre[1] == 48 + j / 64 % 64;
    assert Numerado(i).nombre[2] == 48 + i % 64 && Numerado(j).nombre[2] == 48 + j % 64;
  }
}
