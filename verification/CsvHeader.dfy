/** The header of an import file against its template, and the whole file read with it. */
module CsvHeader {
  import opened Options
  import CsvParse

  datatype Column = Column(name: string, required: bool)

  /** Columns named <prefix><code> are accepted too; an empty prefix means none are. */
  datatype Template = Template(columns: seq<Column>, dynamicPrefix: string)

  datatype HeaderError = EmptyName(column: nat) | Repeated(name: string) | Unknown(name: string) | Missing(name: string)

  predicate IsCode(s: string) {
    1 <= |s| <= 64 && forall n :: 0 <= n < |s| ==> 'a' <= s[n] <= 'z' || '0' <= s[n] <= '9' || s[n] == '_'
  }

  predicate Known(t: Template, name: string) { exists n :: 0 <= n < |t.columns| && t.columns[n].name == name }

  predicate Accepted(t: Template, name: string) {
    Known(t, name) || (t.dynamicPrefix != "" && t.dynamicPrefix <= name && IsCode(name[|t.dynamicPrefix|..]))
  }

  /** A name is accepted exactly when the template lists it, or when it is the dynamic prefix followed by a code of 1 to 64 lower-case characters. */
  lemma AcceptedIff(t: Template, name: string)
    ensures Accepted(t, name) <==>
              || (exists c :: c in t.columns && c.name == name)
              || (t.dynamicPrefix != "" && exists code :: name == t.dynamicPrefix + code && 1 <= |code| <= 64
                                                      && forall x :: x in code ==> 'a' <= x <= 'z' || '0' <= x <= '9' || x == '_')
  {
    var code := if t.dynamicPrefix <= name then name[|t.dynamicPrefix|..] else "";
    forall c: string | name == t.dynamicPrefix + c ensures c == code {}
    assert IsCode(code) <==> 1 <= |code| <= 64 && forall x :: x in code ==> 'a' <= x <= 'z' || '0' <= x <= '9' || x == '_' by {
      forall n | 0 <= n < |code| ensures code[n] in code {}
    }
    assert Known(t, name) <==> exists c :: c in t.columns && c.name == name by {
      if Known(t, name) {
        var n :| 0 <= n < |t.columns| && t.columns[n].name == name;
        assert t.columns[n] in t.columns;
      }
    }
    assert t.dynamicPrefix <= name ==> name == t.dynamicPrefix + code;
  }

  /** A usable header: each name given, known and once. */
  ghost predicate Usable(t: Template, names: seq<string>) {
    && CsvParse.DistinctHeader(names)
    && (forall n :: 0 <= n < |names| ==> names[n] != "" && Accepted(t, names[n]))
  }

  ghost predicate Complete(t: Template, names: seq<string>) {
    forall n :: 0 <= n < |t.columns| && t.columns[n].required ==> t.columns[n].name in names
  }

  function Cleaned(clean: string -> string, raw: seq<string>): (names: seq<string>)
    ensures |names| == |raw| && forall n :: 0 <= n < |raw| ==> names[n] == clean(raw[n])
  {
    seq(|raw|, n requires 0 <= n < |raw| => clean(raw[n]))
  }

  /** The first column that is not usable is the one reported; a missing column only when all are. */
  ghost predicate Explains(t: Template, names: seq<string>, e: HeaderError) {
    match e
    case EmptyName(n) => 1 <= n <= |names| && Usable(t, names[..n - 1]) && names[n - 1] == ""
    case Repeated(x) => exists n :: 0 <= n < |names| && Usable(t, names[..n]) && names[n] == x && x != "" && x in names[..n]
    case Unknown(x) =>
      exists n :: 0 <= n < |names| && Usable(t, names[..n]) && names[n] == x && x != "" && x !in names[..n] && !Accepted(t, x)
    case Missing(x) => Usable(t, names) && Known(t, x) && x !in names && Column(x, true) in t.columns
  }

  method CheckHeader(clean: string -> string, raw: seq<string>, t: Template) returns (out: Result<seq<string>, HeaderError>)
    ensures out.Ok? <==> Usable(t, Cleaned(clean, raw)) && Complete(t, Cleaned(clean, raw))
    ensures out.Ok? ==> out.value == Cleaned(clean, raw)
    ensures out.Err? ==> Explains(t, Cleaned(clean, raw), out.error)
  {
    hide Accepted;
    ghost var names := Cleaned(clean, raw);
    var header: seq<string> := [];
    for n := 0 to |raw|
      invariant header == names[..n] && Usable(t, names[..n])
    {
      var name := clean(raw[n]);
      assert names[n] == name;
      if name == "" {
        return Err(EmptyName(n + 1));
      }
      if name in header {
        NotUsable(t, names, n);
        return Err(Repeated(name));
      }
      if !Accepted(t, name) {
        return Err(Unknown(name));
      }
      header := header + [name];
    }
    assert names[..|raw|] == names;
    for n := 0 to |t.columns|
      invariant forall m :: 0 <= m < n && t.columns[m].required ==> t.columns[m].name in names
    {
      var c := t.columns[n];
      if c.required && c.name !in header {
        assert t.columns[n] == Column(c.name, true);
        return Err(Missing(c.name));
      }
    }
    return Ok(header);
  }

  lemma NotUsable(t: Template, names: seq<string>, n: nat)
    requires n < |names| && names[n] in names[..n]
    ensures !Usable(t, names)
  {
    var m :| 0 <= m < n && names[..n][m] == names[n];
    assert names[m] == names[n];
  }

  datatype ReadError = BadHeader(header: HeaderError) | BadRows(rows: CsvParse.FileError)

  /** A file is read exactly when its header fits the template and its entries fit the header. */
  method ReadFile(clean: string -> string, trim: string -> string, raw: seq<string>, entries: seq<CsvParse.Entry>, t: Template, maxRows: nat)
    returns (out: Result<CsvParse.Parsed, ReadError>)
    ensures var names := Cleaned(clean, raw);
            && (out.Ok? <==> && Usable(t, names) && Complete(t, names)
                             && CsvParse.AllAcceptable(names, entries) && 0 < CsvParse.DataRows(trim, entries) <= maxRows)
            && (out.Ok? ==> CsvParse.Collected(names, trim, entries, out.value))
  {
    hide Usable, Complete;
    var header := CheckHeader(clean, raw, t);
    if header.Err? {
      return Err(BadHeader(header.error));
    }
    assert CsvParse.DistinctHeader(header.value) by { UsableIsDistinct(t, header.value); }
    var p := CsvParse.Parse(header.value, trim, entries, maxRows);
    match p {
      case Ok(parsed) => return Ok(parsed);
      case Err(e) => return Err(BadRows(e));
    }
  }

  lemma UsableIsDistinct(t: Template, names: seq<string>)
    requires Usable(t, names)
    ensures CsvParse.DistinctHeader(names)
  {}
}
