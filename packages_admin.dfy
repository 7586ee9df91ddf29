/** The package administration page: saving (add or replace), deleting and
    switching packages on and off, and the text form of a package's included
    items — one item per line, `name,quantity,unit[,note]`. */
module PackagesAdmin {
  import opened Types
  import opened JsText

  /** Some package in the list has the id. */
  predicate HasId(packages: seq<Package>, id: string) {
    exists i :: 0 <= i < |packages| && packages[i].id == id
  }

  /** Every package with the edited package's id is swapped for it where it
      stands; the others stay as they are. */
  function ReplaceById(packages: seq<Package>, pkg: Package): (r: seq<Package>)
    ensures |r| == |packages|
    ensures forall i :: 0 <= i < |r| ==> r[i] == if packages[i].id == pkg.id then pkg else packages[i]
  {
    if packages == [] then []
    else [if packages[0].id == pkg.id then pkg else packages[0]] + ReplaceById(packages[1..], pkg)
  }

  /** `handleSave`: a package whose id is new is added at the end; otherwise
      every package with that id is replaced by it, in place. */
  function SavePackage(packages: seq<Package>, pkg: Package): (r: seq<Package>)
    ensures !HasId(packages, pkg.id) ==> r == packages + [pkg]
    ensures HasId(packages, pkg.id) ==> |r| == |packages|
    ensures HasId(packages, pkg.id) ==>
      forall i :: 0 <= i < |r| ==> r[i] == if packages[i].id == pkg.id then pkg else packages[i]
  {
    if !HasId(packages, pkg.id) then packages + [pkg] else ReplaceById(packages, pkg)
  }

  /** After a save the package is in the list, it is the only version of its
      id, and every package of another id is kept, in place, and nothing else added. */
  lemma SavePackageContents(packages: seq<Package>, pkg: Package)
    ensures pkg in SavePackage(packages, pkg)
    ensures forall p :: p in SavePackage(packages, pkg) && p.id == pkg.id ==> p == pkg
    ensures forall p: Package :: p.id != pkg.id ==> (p in SavePackage(packages, pkg) <==> p in packages)
    ensures |SavePackage(packages, pkg)| == if HasId(packages, pkg.id) then |packages| else |packages| + 1
  {
    var r := SavePackage(packages, pkg);
    if HasId(packages, pkg.id) {
      var i :| 0 <= i < |packages| && packages[i].id == pkg.id;
      assert r[i] == pkg;
      forall p: Package | p.id != pkg.id && p in packages
        ensures p in r
      {
        var j :| 0 <= j < |packages| && packages[j] == p;
        assert r[j] == p;
      }
    }
  }

  /** Saving the same package twice is saving it once. */
  lemma SavePackageIdempotent(packages: seq<Package>, pkg: Package)
    ensures SavePackage(SavePackage(packages, pkg), pkg) == SavePackage(packages, pkg)
  {
    var r := SavePackage(packages, pkg);
    SavePackageContents(packages, pkg);
    assert HasId(r, pkg.id) by {
      var i :| 0 <= i < |r| && r[i] == pkg;
    }
    assert ReplaceById(r, pkg) == r;
  }

  /** `handleDelete` (once confirmed): every package with the id is dropped, the rest kept in order. */
  function DeletePackage(packages: seq<Package>, id: string): (r: seq<Package>)
    ensures |r| <= |packages|
    ensures forall p :: p in r <==> p in packages && p.id != id
  {
    if packages == [] then []
    else if packages[0].id == id then DeletePackage(packages[1..], id)
    else [packages[0]] + DeletePackage(packages[1..], id)
  }

  /** Deleting from a concatenation deletes from each part, so the packages
      kept stay in order, each as often as before; a single package is kept
      exactly when its id differs. */
  lemma {:induction false} DeletePackageAppend(a: seq<Package>, b: seq<Package>, id: string)
    ensures DeletePackage(a + b, id) == DeletePackage(a, id) + DeletePackage(b, id)
    ensures |a| == 1 ==> DeletePackage(a, id) == if a[0].id == id then [] else a
  {
    if a == [] {
      assert a + b == b;
    } else {
      assert (a + b)[1..] == a[1..] + b;
      DeletePackageAppend(a[1..], b, id);
      if |a| == 1 {
        assert a[1..] == [];
      }
    }
  }

  /** A deleted id is gone, and deleting it again changes nothing. */
  lemma {:induction false} DeletePackageIdempotent(packages: seq<Package>, id: string)
    ensures !HasId(DeletePackage(packages, id), id)
    ensures DeletePackage(DeletePackage(packages, id), id) == DeletePackage(packages, id)
  {
    var r := DeletePackage(packages, id);
    assert forall i :: 0 <= i < |r| ==> r[i] in r;
    if packages != [] {
      DeletePackageIdempotent(packages[1..], id);
      if packages[0].id != id {
        assert ([packages[0]] + DeletePackage(packages[1..], id))[1..] == DeletePackage(packages[1..], id);
      }
    }
  }

  /** `handleToggleActive`: the packages with the id switch their active flag; nothing else changes. */
  function ToggleActive(packages: seq<Package>, id: string): (r: seq<Package>)
    ensures |r| == |packages|
    ensures forall i :: 0 <= i < |r| ==>
      r[i] == if packages[i].id == id then packages[i].(isActive := !packages[i].isActive) else packages[i]
  {
    if packages == [] then []
    else
      [if packages[0].id == id then packages[0].(isActive := !packages[0].isActive) else packages[0]]
      + ToggleActive(packages[1..], id)
  }

  /** Toggling twice restores the list. */
  lemma ToggleTwice(packages: seq<Package>, id: string)
    ensures ToggleActive(ToggleActive(packages, id), id) == packages
  {
    var r := ToggleActive(ToggleActive(packages, id), id);
    assert forall i :: 0 <= i < |r| ==> r[i] == packages[i];
  }

  // ---------------------------------------------------------------------------
  // The included-items text

  /** The unit as the edit form prints it: a missing unit prints as the text `undefined`. */
  function UnitText(unit: Option<string>): string {
    if unit.Some? then unit.value else "undefined"
  }

  /** The note field of a line: written only when the note is present and not empty. */
  function NoteFields(note: Option<string>): seq<string> {
    if note.Some? && note.value != "" then [note.value] else []
  }

  /** The fields of an item's line as the edit form writes them. */
  function ItemFieldsAsWritten(item: PackageItem): (r: seq<string>)
    ensures 3 <= |r| <= 4
    ensures r[0] == item.name && r[1] == IntToString(item.quantity)
    ensures r[2] == if item.unit.Some? then item.unit.value else "undefined"
    ensures |r| == 4 <==> item.note.Some? && item.note.value != ""
    ensures |r| == 4 ==> r[3] == item.note.value
  {
    [item.name, IntToString(item.quantity), UnitText(item.unit)] + NoteFields(item.note)
  }

  /** One line of the edit form's initial text as the form writes it. */
  function ItemLineAsWritten(item: PackageItem): string {
    Join(ItemFieldsAsWritten(item), ',')
  }

  /** The edit form's initial text as the form writes it: one line per item. */
  function SerialiseItemsAsWritten(items: seq<PackageItem>): string {
    Join(seq(|items|, i requires 0 <= i < |items| => ItemLineAsWritten(items[i])), '\n')
  }

  /** The fields of an item's line with a missing unit left out rather than
      written as `undefined`; the parser never yields a note without a unit. */
  function ItemFields(item: PackageItem): seq<string> {
    [item.name, IntToString(item.quantity)]
    + (if item.unit.Some? then [item.unit.value] + NoteFields(item.note) else [])
  }

  /** One line of the edit form's text, fields joined by commas. */
  function ItemLine(item: PackageItem): string {
    Join(ItemFields(item), ',')
  }

  function ItemLines(items: seq<PackageItem>): (r: seq<string>)
    ensures |r| == |items| && forall i :: 0 <= i < |r| ==> r[i] == ItemLine(items[i])
  {
    if items == [] then [] else [ItemLine(items[0])] + ItemLines(items[1..])
  }

  /** The edit form's initial text: one line per item. */
  function SerialiseItems(items: seq<PackageItem>): string {
    Join(ItemLines(items), '\n')
  }

  /** Every field of a line, trimmed of surrounding whitespace. */
  function TrimAll(parts: seq<string>): (r: seq<string>)
    ensures |r| == |parts| && forall i :: 0 <= i < |r| ==> r[i] == Trim(parts[i])
  {
    seq(|parts|, i requires 0 <= i < |parts| => Trim(parts[i]))
  }

  /** The field at a position, absent past the end of the line. */
  function Field(fields: seq<string>, i: nat): (r: Option<string>)
    ensures r.Some? <==> i < |fields|
  {
    if i < |fields| then Some(fields[i]) else None
  }

  /** The quantity of a line: a missing or unreadable field counts as 0,
      otherwise the number read from the start of the field. */
  function QuantityOf(field: Option<string>): (r: int)
    ensures field.None? || ParseInt(field.value).None? ==> r == 0
    ensures field.Some? && ParseInt(field.value).Some? ==> r == ParseInt(field.value).value
  {
    if field.None? then 0
    else match ParseInt(field.value)
      case None => 0
      case Some(v) => v
  }

  /** An empty note is no note. */
  function NoteOf(field: Option<string>): (r: Option<string>)
    ensures r.Some? ==> r.value != "" && r == field
  {
    if field.Some? && field.value != "" then field else None
  }

  /** One line of the edit form parsed into an item: the comma-separated
      fields, each trimmed, are the name, quantity, unit and note; fields
      past the fourth are ignored. */
  function ParseLine(line: string): PackageItem {
    var fields := TrimAll(Split(line, ','));
    PackageItem(fields[0], QuantityOf(Field(fields, 1)), Field(fields, 2), NoteOf(Field(fields, 3)))
  }

  /** The lines that are not blank once trimmed, in their order. */
  function NonBlank(lines: seq<string>): seq<string> {
    if lines == [] then []
    else if !NonBlankKeeps(lines[0]) then NonBlank(lines[1..])
    else [lines[0]] + NonBlank(lines[1..])
  }

  /** Exactly the lines that are not blank once trimmed are kept. */
  lemma {:induction false} NonBlankMembers(lines: seq<string>)
    ensures forall l :: l in NonBlank(lines) <==> l in lines && Trim(l) != ""
  {
    if lines != [] {
      NonBlankMembers(lines[1..]);
      assert lines == [lines[0]] + lines[1..];
    }
  }

  /** Dropping blank lines from a concatenation drops them from each part, so
      the lines kept stay in order, each as often as before. */
  lemma {:induction false} NonBlankAppend(a: seq<string>, b: seq<string>)
    ensures NonBlank(a + b) == NonBlank(a) + NonBlank(b)
  {
    if a == [] {
      assert a + b == b;
    } else {
      var line, rest := a[0], a[1..];
      HeadAndTail(a);
      AppendAssociative([line], rest, b);
      NonBlankAppend(rest, b);
      var x, y := NonBlank(rest), NonBlank(b);
      if NonBlankKeeps(line) {
        NonBlankCons(line, rest);
        NonBlankCons(line, rest + b);
        AppendAssociative([line], x, y);
      } else {
        NonBlankCons(line, rest);
        NonBlankCons(line, rest + b);
      }
    }
  }

  lemma AppendAssociative<T>(a: seq<T>, b: seq<T>, c: seq<T>)
    ensures a + (b + c) == (a + b) + c
  {
  }

  lemma HeadAndTail<T>(s: seq<T>)
    requires s != []
    ensures s == [s[0]] + s[1..]
  {
  }

  /** Whether the filter keeps a line. */
  predicate NonBlankKeeps(line: string) {
    Trim(line) != ""
  }

  /** One line more in front is kept exactly when it is not blank. */
  lemma NonBlankCons(line: string, rest: seq<string>)
    ensures NonBlank([line] + rest) == if NonBlankKeeps(line) then [line] + NonBlank(rest) else NonBlank(rest)
  {
    assert ([line] + rest)[1..] == rest;
  }

  /** A single line is kept exactly when it is not blank. */
  lemma NonBlankOne(line: string)
    ensures NonBlank([line]) == if NonBlankKeeps(line) then [line] else []
  {
    NonBlankCons(line, []);
    assert [line] + [] == [line];
  }

  function ParseLines(lines: seq<string>): (r: seq<PackageItem>)
    ensures |r| == |lines| && forall i :: 0 <= i < |r| ==> r[i] == ParseLine(lines[i])
  {
    seq(|lines|, i requires 0 <= i < |lines| => ParseLine(lines[i]))
  }

  /** The edit form's text parsed into the package's included items. */
  function ParseItems(text: string): seq<PackageItem> {
    ParseLines(NonBlank(Split(text, '\n')))
  }

  // ---------------------------------------------------------------------------
  // Round trip

  /** A field that survives the text form: no comma, no line break, and no
      whitespace at either end. */
  predicate IsPlainField(s: string) {
    ',' !in s && '\n' !in s && IsTrimmed(s)
  }

  /** An item the text form can hold: every text field plain, a note only
      when it is not empty and only beside a unit. */
  predicate IsStorable(item: PackageItem) {
    && IsPlainField(item.name)
    && (item.unit.Some? ==> IsPlainField(item.unit.value))
    && (item.note.Some? ==> IsPlainField(item.note.value) && item.note.value != "")
    && (item.unit.None? ==> item.note.None?)
  }

  lemma IntToStringIsPlain(n: int)
    ensures IsPlainField(IntToString(n))
  {
    var s := IntToString(n);
    var digits := if n < 0 then NatToString(-n) else NatToString(n);
    assert s == (if n < 0 then "-" else "") + digits;
    assert forall i :: 0 <= i < |digits| ==> IsDigit(digits[i]);
    assert forall i :: 0 <= i < |s| ==> s[i] == '-' || IsDigit(s[i]);
  }

  /** A character of the joined text is a separator or a character of a part. */
  lemma {:induction false} JoinChars(parts: seq<string>, sep: char, c: char)
    requires c != sep && forall i :: 0 <= i < |parts| ==> c !in parts[i]
    ensures c !in Join(parts, sep)
  {
    if |parts| > 1 {
      JoinChars(parts[1..], sep, c);
    }
  }

  /** A character of a part is a character of the joined text. */
  lemma {:induction false} JoinHasPartChars(parts: seq<string>, sep: char, i: int, c: char)
    requires 0 <= i < |parts| && c in parts[i]
    ensures c in Join(parts, sep)
  {
    if |parts| > 1 && i > 0 {
      JoinHasPartChars(parts[1..], sep, i - 1, c);
    }
  }

  /** A trimmed string holds only characters of the original. */
  lemma TrimChars(s: string, c: char)
    requires c in Trim(s)
    ensures c in s
  {
    var i :| IsTrimSlice(s, i, Trim(s));
  }

  /** A text that holds a non-whitespace character does not trim to nothing. */
  lemma TrimNotBlank(s: string, k: int)
    requires 0 <= k < |s| && !IsWhitespace(s[k])
    ensures Trim(s) != ""
  {
    var i :| IsTrimSlice(s, i, Trim(s));
  }

  /** Plain fields joined by commas parse back to those fields. */
  lemma ParseJoinedFields(fields: seq<string>)
    requires |fields| >= 1 && forall i :: 0 <= i < |fields| ==> IsPlainField(fields[i])
    ensures ParseLine(Join(fields, ',')) ==
      PackageItem(fields[0], QuantityOf(Field(fields, 1)), Field(fields, 2), NoteOf(Field(fields, 3)))
  {
    SplitJoin(fields, ',');
    forall i | 0 <= i < |fields|
      ensures Trim(fields[i]) == fields[i]
    {
      TrimOfTrimmed(fields[i]);
    }
    assert TrimAll(fields) == fields;
  }

  /** A written quantity reads back as itself. */
  lemma QuantityRoundTrip(n: int)
    ensures QuantityOf(Some(IntToString(n))) == n
  {
    ParseIntOfIntToString(n);
  }

  /** Every field of a storable item's line is plain. */
  lemma ItemFieldsPlain(item: PackageItem)
    requires IsStorable(item)
    ensures |ItemFields(item)| >= 2
    ensures forall i :: 0 <= i < |ItemFields(item)| ==> IsPlainField(ItemFields(item)[i])
  {
    IntToStringIsPlain(item.quantity);
  }

  /** The line of a storable item has no line break and is not blank. */
  lemma ItemLineShape(item: PackageItem)
    requires IsStorable(item)
    ensures '\n' !in ItemLine(item) && Trim(ItemLine(item)) != ""
  {
    var fields := ItemFields(item);
    ItemFieldsPlain(item);
    JoinChars(fields, ',', '\n');
    assert Join(fields, ',') == fields[0] + [','] + Join(fields[1..], ',');
    assert ItemLine(item)[|item.name|] == ',';
    TrimNotBlank(ItemLine(item), |item.name|);
  }

  /** The fields of a storable item's line are read back as its name,
      quantity text, unit and note. */
  lemma ItemFieldsRead(item: PackageItem)
    requires IsStorable(item)
    ensures var fields := ItemFields(item);
      && fields[0] == item.name && Field(fields, 1) == Some(IntToString(item.quantity))
      && Field(fields, 2) == item.unit && NoteOf(Field(fields, 3)) == item.note
  {
    var fields := ItemFields(item);
    if item.unit.None? {
      assert fields == [item.name, IntToString(item.quantity)];
    } else if item.note.Some? {
      assert fields == [item.name, IntToString(item.quantity), item.unit.value, item.note.value];
    } else {
      assert fields == [item.name, IntToString(item.quantity), item.unit.value];
    }
  }

  /** The line of a storable item parses back to the item. */
  lemma ParseItemLine(item: PackageItem)
    requires IsStorable(item)
    ensures ParseLine(ItemLine(item)) == item
  {
    var fields := ItemFields(item);
    ItemFieldsPlain(item);
    ParseJoinedFields(fields);
    QuantityRoundTrip(item.quantity);
    ItemFieldsRead(item);
  }

  /** Writing storable items to the edit form's text and parsing it back gives the items. */
  lemma SerialiseRoundTrip(items: seq<PackageItem>)
    requires forall i :: 0 <= i < |items| ==> IsStorable(items[i])
    ensures ParseItems(SerialiseItems(items)) == items
  {
    if items == [] {
      EmptyTextNoItems();
    } else {
      SerialisedLines(items);
      ParsedLines(items);
    }
  }

  /** An empty text holds no items. */
  lemma EmptyTextNoItems()
    ensures ParseItems("") == []
  {
    assert Split("", '\n') == [""];
    assert NonBlank([""]) == [] by { assert Trim("") == ""; }
  }

  /** Splitting the text of storable items into its non-blank lines gives their lines. */
  lemma SerialisedLines(items: seq<PackageItem>)
    requires items != [] && forall i :: 0 <= i < |items| ==> IsStorable(items[i])
    ensures NonBlank(Split(SerialiseItems(items), '\n')) == ItemLines(items)
  {
    var lines := ItemLines(items);
    forall i | 0 <= i < |lines|
      ensures '\n' !in lines[i] && Trim(lines[i]) != ""
    {
      ItemLineShape(items[i]);
    }
    SplitJoin(lines, '\n');
    NonBlankKeepsAll(lines);
  }

  /** The lines of storable items parse back to the items. */
  lemma ParsedLines(items: seq<PackageItem>)
    requires forall i :: 0 <= i < |items| ==> IsStorable(items[i])
    ensures ParseLines(ItemLines(items)) == items
  {
    var lines := ItemLines(items);
    forall i | 0 <= i < |items|
      ensures ParseLine(lines[i]) == items[i]
    {
      ParseItemLine(items[i]);
    }
  }

  /** A list of lines none of which is blank is kept whole. */
  lemma {:induction false} NonBlankKeepsAll(lines: seq<string>)
    requires forall i :: 0 <= i < |lines| ==> NonBlankKeeps(lines[i])
    ensures NonBlank(lines) == lines
  {
    if lines != [] {
      var line, rest := lines[0], lines[1..];
      assert forall i :: 0 <= i < |rest| ==> rest[i] == lines[i + 1];
      NonBlankKeepsAll(rest);
      HeadAndTail(lines);
      NonBlankCons(line, rest);
    }
  }

  /** Whatever the text, the items parsed from it are storable. */
  lemma ParsedLineStorable(line: string)
    requires '\n' !in line
    ensures IsStorable(ParseLine(line))
  {
    var parts := Split(line, ',');
    var fields := TrimAll(parts);
    forall i | 0 <= i < |fields|
      ensures IsPlainField(fields[i])
    {
      if ',' in fields[i] { TrimChars(parts[i], ','); }
      if '\n' in fields[i] {
        TrimChars(parts[i], '\n');
        JoinHasPartChars(parts, ',', i, '\n');
      }
    }
  }

  lemma ParsedItemsStorable(text: string)
    ensures forall i :: 0 <= i < |ParseItems(text)| ==> IsStorable(ParseItems(text)[i])
  {
    var lines := Split(text, '\n');
    var kept := NonBlank(lines);
    NonBlankMembers(lines);
    forall i | 0 <= i < |kept|
      ensures IsStorable(ParseLine(kept[i]))
    {
      assert kept[i] in lines;
      ParsedLineStorable(kept[i]);
    }
  }

  /** Opening the edit form and saving it unchanged leaves the items as they were. */
  lemma ResaveUnchanged(text: string)
    ensures ParseItems(SerialiseItems(ParseItems(text))) == ParseItems(text)
  {
    ParsedItemsStorable(text);
    SerialiseRoundTrip(ParseItems(text));
  }

  /** Where an item has a unit, the form's own line and the corrected line agree. */
  lemma AsWrittenAgreesWithUnit(item: PackageItem)
    requires item.unit.Some?
    ensures ItemFieldsAsWritten(item) == ItemFields(item)
  {
  }

  /** When every item has a unit, the edit form's own text is the corrected text. */
  lemma AsWrittenWithUnits(items: seq<PackageItem>)
    requires forall i :: 0 <= i < |items| ==> items[i].unit.Some?
    ensures SerialiseItemsAsWritten(items) == SerialiseItems(items)
  {
    var written := seq(|items|, i requires 0 <= i < |items| => ItemLineAsWritten(items[i]));
    forall i | 0 <= i < |items|
      ensures written[i] == ItemLines(items)[i]
    {
      AsWrittenAgreesWithUnit(items[i]);
    }
    assert written == ItemLines(items);
  }

  /** The edit form's own text of storable items that all have a unit parses
      back to the same items. */
  lemma AsWrittenRoundTrip(items: seq<PackageItem>)
    requires forall i :: 0 <= i < |items| ==> IsStorable(items[i]) && items[i].unit.Some?
    ensures ParseItems(SerialiseItemsAsWritten(items)) == items
  {
    AsWrittenWithUnits(items);
    SerialiseRoundTrip(items);
  }

  /** The edit form's own line for an item without a unit, `name,quantity,undefined`,
      parses back with the unit set to the text `undefined`. */
  lemma UnitlessItemGainsUndefined(item: PackageItem)
    requires IsPlainField(item.name) && item.unit.None? && item.note.None?
    ensures ParseLine(ItemLineAsWritten(item)) == item.(unit := Some("undefined"))
  {
    assert ItemFieldsAsWritten(item) == [item.name, IntToString(item.quantity), "undefined"];
    assert ItemLineAsWritten(item) == Join([item.name, IntToString(item.quantity), "undefined"], ',');
    IntToStringIsPlain(item.quantity);
    UndefinedIsPlain();
    ParseThreeFields(item.name, IntToString(item.quantity), "undefined");
    QuantityRoundTrip(item.quantity);
  }

  /** A line of three plain fields is an item with a unit and no note. */
  lemma ParseThreeFields(name: string, quantity: string, unit: string)
    requires IsPlainField(name) && IsPlainField(quantity) && IsPlainField(unit)
    ensures ParseLine(Join([name, quantity, unit], ',')) == PackageItem(name, QuantityOf(Some(quantity)), Some(unit), None)
  {
    var fields := [name, quantity, unit];
    ParseJoinedFields(fields);
    assert Field(fields, 1) == Some(quantity);
    assert Field(fields, 2) == Some(unit) && Field(fields, 3) == None;
  }

  lemma UndefinedIsPlain()
    ensures IsPlainField("undefined")
  {
    var u := "undefined";
    assert forall i :: 0 <= i < |u| ==> 'a' <= u[i] <= 'z';
  }

  /** An item without a unit is what the parser makes of a two-field line such
      as `相機,2`; written back by the edit form and saved again, it gains the
      unit `undefined`, while the corrected line leaves it as it was. */
  lemma ResaveUnitlessItem(item: PackageItem)
    requires IsPlainField(item.name) && item.unit.None? && item.note.None?
    ensures ParseLine(Join([item.name, IntToString(item.quantity)], ',')) == item
    ensures ParseLine(ItemLineAsWritten(item)) != item
    ensures ParseLine(ItemLine(item)) == item
  {
    assert ItemFields(item) == [item.name, IntToString(item.quantity)];
    ParseItemLine(item);
    UnitlessItemGainsUndefined(item);
  }
}
