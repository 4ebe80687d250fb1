/**
 * The spreadsheet-to-Ansible-inventory mapping of `excelparser`: which
 * cells of a server row become host variables, which group a host falls
 * in, which rows of the sheet are hosts, and the general variables read
 * from the header block. A sheet is given as its rows of cell display text;
 * reading the workbook and writing YAML are outside the model.
 */
module ExcelParser {
  import opened Wrappers
  import opened Text
  import Decimal

  /** A YAML value stored under a variable: a string or an `i32` number. */
  datatype Value = Str(s: string) | Num(n: int)

  type Row = seq<string>

  datatype AnsibleHost = AnsibleHost(
    ansibleHost: string,
    ansibleUser: Option<string>,
    ansiblePassword: Option<string>,
    ansibleSshPrivateKeyFile: Option<string>,
    ansibleConnection: Option<string>,
    ansiblePort: Option<int>,
    vars: map<string, Value>)

  datatype AnsibleGroup = AnsibleGroup(hosts: map<string, AnsibleHost>, vars: Option<map<string, Value>>)

  datatype AnsibleInventory = AnsibleInventory(children: map<string, AnsibleGroup>, vars: Option<map<string, Value>>)

  /** The error type of `parse_server_row`; no input produces one. */
  datatype ParseError = ParseError

  function Lookup(m: map<string, Value>, k: string): Option<Value> {
    if k in m then Some(m[k]) else None
  }

  // ---------------------------------------------------------------------
  // The column table of a server row
  // ---------------------------------------------------------------------

  /**
   * How a mapped cell is stored: as its text whenever the cell exists, as a
   * number only when its text parses as an `i32`, or as its text only when
   * that text is non-empty.
   */
  datatype Kind = Text | Integer | NonEmptyText

  datatype Column = Column(index: nat, key: string, kind: Kind)

  const DescriptionColumn := Column(2, "description", Text)
  const NameColumn := Column(3, "name", Text)
  const ClusterColumn := Column(4, "cluster", Text)
  const DomainColumn := Column(6, "domain", Text)
  const TemplateColumn := Column(8, "template", Text)
  const RoleColumn := Column(9, "role", Text)
  const VcpuColumn := Column(11, "vcpu", Integer)
  const MemoryColumn := Column(12, "memory", Integer)
  const Harddrive1CColumn := Column(13, "harddrive1_c", Integer)
  const Harddrive2LColumn := Column(14, "harddrive2_l", Integer)
  const Vlan1Column := Column(23, "vlan1", Text)
  const Ip1Column := Column(25, "ip1", Text)
  const SubnetMask1Column := Column(26, "subnet_mask1", Text)
  const Gateway1Column := Column(27, "gateway1", Text)
  const Dns1Column := Column(28, "dns1", Text)
  const Vlan2Column := Column(30, "vlan2", NonEmptyText)
  const Ip2Column := Column(32, "ip2", NonEmptyText)
  const SubnetMask2Column := Column(33, "subnet_mask2", NonEmptyText)

  /** The mapped columns, in the order `parse_server_row` inserts them. */
  const Columns: seq<Column> := [
    DescriptionColumn, NameColumn, ClusterColumn, DomainColumn, TemplateColumn, RoleColumn,
    VcpuColumn, MemoryColumn, Harddrive1CColumn, Harddrive2LColumn, Vlan1Column, Ip1Column,
    SubnetMask1Column, Gateway1Column, Dns1Column, Vlan2Column, Ip2Column, SubnetMask2Column]

  /** The value a column contributes for a row, or None when it contributes nothing. */
  function ColumnValue(row: Row, c: Column): Option<Value> {
    if c.index >= |row| then None
    else match c.kind
      case Text => Some(Str(row[c.index]))
      case Integer =>
        (match Decimal.ParseI32(row[c.index])
         case None => None
         case Some(n) => Some(Num(n)))
      case NonEmptyText => if |row[c.index]| == 0 then None else Some(Str(row[c.index]))
  }

  /** `m` holds exactly what the columns `cols` say for `row`, and nothing else. */
  predicate Follows(row: Row, cols: seq<Column>, m: map<string, Value>) {
    && (forall i :: 0 <= i < |cols| ==> Lookup(m, cols[i].key) == ColumnValue(row, cols[i]))
    && (forall k :: k in m ==> exists i :: 0 <= i < |cols| && cols[i].key == k)
  }

  /** `m` with the value of column `c` inserted, when the column gives one. */
  function Put(m: map<string, Value>, row: Row, c: Column): map<string, Value> {
    match ColumnValue(row, c)
    case None => m
    case Some(v) => m[c.key := v]
  }

  /** The variables the columns `cols` give, inserted in order. */
  function VarsFrom(row: Row, cols: seq<Column>): map<string, Value> {
    if cols == [] then map[]
    else Put(VarsFrom(row, cols[..|cols| - 1]), row, cols[|cols| - 1])
  }

  /** Appending a column to the table is one more insertion. */
  lemma VarsFromAppend(row: Row, cols: seq<Column>, c: Column)
    ensures VarsFrom(row, cols + [c]) == Put(VarsFrom(row, cols), row, c)
  {
    assert (cols + [c])[..|cols|] == cols;
  }

  /** The table's keys are pairwise distinct. */
  predicate DistinctKeys(cols: seq<Column>) {
    forall i, j :: 0 <= i < j < |cols| ==> cols[i].key != cols[j].key
  }

  /** With distinct keys, the insertions of `VarsFrom` give each column its own value and add nothing else. */
  lemma {:induction false} VarsFromFollows(row: Row, cols: seq<Column>)
    requires DistinctKeys(cols)
    ensures Follows(row, cols, VarsFrom(row, cols))
  {
    if cols != [] {
      var init := cols[..|cols| - 1];
      var last := cols[|cols| - 1];
      assert DistinctKeys(init);
      VarsFromFollows(row, init);
      forall i | 0 <= i < |cols|
        ensures Lookup(VarsFrom(row, cols), cols[i].key) == ColumnValue(row, cols[i])
      {
        if i < |cols| - 1 {
          assert cols[i] == init[i];
          assert cols[i].key != last.key;
        }
      }
      forall k | k in VarsFrom(row, cols)
        ensures exists i :: 0 <= i < |cols| && cols[i].key == k
      {
        if k != last.key {
          assert k in VarsFrom(row, init);
          var i :| 0 <= i < |init| && init[i].key == k;
          assert cols[i] == init[i];
        }
      }
    }
  }

  /** The keys of the table, in table order. */
  const ColumnKeys: seq<string> := ["description", "name", "cluster", "domain", "template", "role", "vcpu", "memory",
    "harddrive1_c", "harddrive2_l", "vlan1", "ip1", "subnet_mask1", "gateway1", "dns1", "vlan2", "ip2", "subnet_mask2"]

  lemma ColumnKeysDistinct()
    ensures forall i, j :: 0 <= i < j < |ColumnKeys| ==> ColumnKeys[i] != ColumnKeys[j]
  {
  }

  lemma ColumnKeysListed()
    ensures |Columns| == |ColumnKeys|
    ensures forall i :: 0 <= i < |Columns| ==> Columns[i].key == ColumnKeys[i]
  {
  }

  /** The keys of the table differ. */
  lemma ColumnsDistinct()
    ensures DistinctKeys(Columns)
  {
    ColumnKeysDistinct();
    ColumnKeysListed();
  }

  /** The variables of a row: the column table's insertions, in order. */
  function RowVars(row: Row): map<string, Value> {
    VarsFrom(row, Columns)
  }

  /** Each column of the table contributes its own value to a row's variables, and nothing else is there. */
  lemma RowVarsFollow(row: Row)
    ensures Follows(row, Columns, RowVars(row))
  {
    ColumnsDistinct();
    VarsFromFollows(row, Columns);
  }

  /** The text stored under a key, if it is a string (`Value::as_str`). */
  function StrVar(vars: map<string, Value>, key: string): Option<string> {
    if key in vars && vars[key].Str? then Some(vars[key].s) else None
  }

  /**
   * The host a server row describes: the column table's variables, the
   * first IP address (or "localhost") as `ansible_host`, "Administrator"
   * over "vmware_tools", and no password, key file or port.
   */
  function RowHost(row: Row): (h: AnsibleHost)
    ensures h.ansibleHost == (if |row| > 25 then row[25] else "localhost")
    ensures h.ansibleUser == Some("Administrator") && h.ansibleConnection == Some("vmware_tools")
    ensures h.ansiblePassword.None? && h.ansibleSshPrivateKeyFile.None? && h.ansiblePort.None?
  {
    var vars := RowVars(row);
    RowVarsFollow(row);
    assert Columns[11] == Ip1Column;
    AnsibleHost(StrVar(vars, "ip1").GetOr("localhost"), Some("Administrator"), None, None, Some("vmware_tools"), None, vars)
  }

  /**
   * One `if let Some(cell) = row.get(i)` step of `parse_server_row`: a text
   * column inserts the cell's text; a number column inserts the parsed
   * `i32` when the text parses; a second-network column inserts the text
   * when it is non-empty.
   */
  method InsertColumn(vars: map<string, Value>, row: Row, c: Column) returns (r: map<string, Value>)
    ensures r == Put(vars, row, c)
  {
    r := vars;
    if c.index < |row| {
      var cell := row[c.index];
      match c.kind {
        case Text =>
          r := r[c.key := Str(cell)];
        case Integer =>
          var parsed := Decimal.ParseI32(cell);
          if parsed.Some? {
            r := r[c.key := Num(parsed.value)];
          }
        case NonEmptyText =>
          if |cell| != 0 {
            r := r[c.key := Str(cell)];
          }
      }
    }
  }

  /**
   * `parse_server_row`: the mapped cells are inserted column by column in
   * the table's order, then `ansible_host` is read back from "ip1". It
   * never fails.
   */
  method ParseServerRow(row: Row) returns (r: Result<AnsibleHost, ParseError>)
    ensures r == Ok(RowHost(row))
  {
    var vars: map<string, Value> := map[];
    for k := 0 to |Columns|
      invariant vars == VarsFrom(row, Columns[..k])
    {
      vars := InsertColumn(vars, row, Columns[k]);
      VarsFromAppend(row, Columns[..k], Columns[k]);
      assert Columns[..k + 1] == Columns[..k] + [Columns[k]];
    }
    assert Columns[..|Columns|] == Columns;
    var ansibleHost := StrVar(vars, "ip1").GetOr("localhost");
    return Ok(AnsibleHost(ansibleHost, Some("Administrator"), None, None, Some("vmware_tools"), None, vars));
  }

  // ---------------------------------------------------------------------
  // Host name and group
  // ---------------------------------------------------------------------

  /** The key a host is stored under: its "name" variable as a string, else "unknown". */
  function HostName(h: AnsibleHost): string {
    StrVar(h.vars, "name").GetOr("unknown")
  }

  /** A parsed row always carries its name cell, so the "unknown" fallback is never taken for it. */
  lemma RowHostName(row: Row)
    requires |row| > 3
    ensures HostName(RowHost(row)) == row[3]
  {
    RowVarsFollow(row);
    assert Columns[1] == NameColumn;
    assert Lookup(RowHost(row).vars, "name") == Some(Str(row[3]));
  }

  /** A keyword of the classifier occurs in the text. */
  predicate HasKeyword(s: string) {
    Contains(s, "prod") || Contains(s, "uac") || Contains(s, "lab")
  }

  /** The group a keyword-bearing text selects: "prod" first, then "uac", then "lab". */
  function KeywordGroup(s: string): (g: Option<string>)
    ensures g == Some("production") <==> Contains(s, "prod")
    ensures g == Some("uac") <==> !Contains(s, "prod") && Contains(s, "uac")
    ensures g == Some("lab") <==> !Contains(s, "prod") && !Contains(s, "uac") && Contains(s, "lab")
    ensures g.None? <==> !HasKeyword(s)
  {
    if Contains(s, "prod") then Some("production")
    else if Contains(s, "uac") then Some("uac")
    else if Contains(s, "lab") then Some("lab")
    else None
  }

  /**
   * `determine_group`: one of the four groups — the keyword group of the
   * domain when the domain has a keyword, else that of the cluster when the
   * cluster has one, and "default" exactly when neither has. Only string
   * values are read.
   */
  function DetermineGroup(h: AnsibleHost): (g: string)
    ensures g in {"production", "uac", "lab", "default"}
    ensures StrVar(h.vars, "domain").Some? && HasKeyword(StrVar(h.vars, "domain").value) ==>
      Some(g) == KeywordGroup(StrVar(h.vars, "domain").value)
    ensures !(StrVar(h.vars, "domain").Some? && HasKeyword(StrVar(h.vars, "domain").value)) ==>
      (StrVar(h.vars, "cluster").Some? && HasKeyword(StrVar(h.vars, "cluster").value) ==>
       Some(g) == KeywordGroup(StrVar(h.vars, "cluster").value))
    ensures g == "default" <==>
      !(StrVar(h.vars, "domain").Some? && HasKeyword(StrVar(h.vars, "domain").value)) &&
      !(StrVar(h.vars, "cluster").Some? && HasKeyword(StrVar(h.vars, "cluster").value))
  {
    var domain := StrVar(h.vars, "domain");
    var cluster := StrVar(h.vars, "cluster");
    if domain.Some? && Contains(domain.value, "prod") then "production"
    else if domain.Some? && Contains(domain.value, "uac") then "uac"
    else if domain.Some? && Contains(domain.value, "lab") then "lab"
    else if cluster.Some? && Contains(cluster.value, "prod") then "production"
    else if cluster.Some? && Contains(cluster.value, "uac") then "uac"
    else if cluster.Some? && Contains(cluster.value, "lab") then "lab"
    else "default"
  }

  /** "prod" outranks "lab" in the same text: a domain "lab-prod" puts the host in "production". */
  lemma LabProdIsProduction(h: AnsibleHost)
    requires StrVar(h.vars, "domain") == Some("lab-prod")
    ensures DetermineGroup(h) == "production"
  {
    assert OccursAt("lab-prod", "prod", 4);
    ContainsIffOccurs("lab-prod", "prod");
  }

  /** The domain outranks the cluster: a keyword in the domain decides even when the cluster says otherwise. */
  lemma DomainBeforeCluster(h: AnsibleHost)
    requires StrVar(h.vars, "domain") == Some("lab01") && StrVar(h.vars, "cluster") == Some("prod-cluster")
    ensures DetermineGroup(h) == "lab"
  {
    assert StartsWith("lab01", "lab") by {
      assert "lab01"[..3] == "lab";
    }
    NotContainsFirstChar("lab01", "prod");
    NotContainsFirstChar("lab01", "uac");
  }

  // ---------------------------------------------------------------------
  // General variables from the header block
  // ---------------------------------------------------------------------

  const NameLabel := "Best\U{e4}llarens Namn:"
  const EmailLabel := "E-Post:"
  const PhoneLabel := "Telefon:"
  const MediaLabel := "Kontaktperson media:"

  /**
   * The value a labelled cell in column 1 of row `r` gives: the cell text
   * with every occurrence of the label removed, then trimmed; None when the
   * row or the cell is missing or the label does not occur in it.
   */
  function Cleaned(cell: string, caption: string): string {
    Trim(RemoveAll(cell, caption))
  }

  function LabelledValue(rows: seq<Row>, r: nat, caption: string): Option<string> {
    if r < |rows| && 1 < |rows[r]| && Contains(rows[r][1], caption) then
      Some(Cleaned(rows[r][1], caption))
    else None
  }

  function AsStr(v: Option<string>): Option<Value> {
    match v
    case None => None
    case Some(s) => Some(Str(s))
  }

  /**
   * The general variables: rows 1 to 4 of column 1, each checked for its
   * own label (orderer's name, e-mail, phone, media contact), and nothing else.
   */
  predicate GeneralVars(rows: seq<Row>, vars: map<string, Value>) {
    && Lookup(vars, "bestallare_namn") == AsStr(LabelledValue(rows, 1, NameLabel))
    && Lookup(vars, "bestallare_email") == AsStr(LabelledValue(rows, 2, EmailLabel))
    && Lookup(vars, "bestallare_telefon") == AsStr(LabelledValue(rows, 3, PhoneLabel))
    && Lookup(vars, "kontaktperson_media") == AsStr(LabelledValue(rows, 4, MediaLabel))
    && vars.Keys <= {"bestallare_namn", "bestallare_email", "bestallare_telefon", "kontaktperson_media"}
  }

  /** `vars` with the text stored under `key` as a string value, when there is a text. */
  function Stored(vars: map<string, Value>, key: string, v: Option<string>): map<string, Value> {
    match v
    case None => vars
    case Some(s) => vars[key := Str(s)]
  }

  /**
   * One labelled cell of lines 73 to 114 of `main`: when row `r` has a
   * column-1 cell containing the caption, the cleaned text is stored under `key`.
   */
  method ReadLabelled(vars: map<string, Value>, rows: seq<Row>, r: nat, caption: string, key: string)
    returns (out: map<string, Value>)
    ensures out == Stored(vars, key, LabelledValue(rows, r, caption))
  {
    out := vars;
    if r < |rows| && 1 < |rows[r]| {
      var value := rows[r][1];
      if Contains(value, caption) {
        out := out[key := Str(Cleaned(value, caption))];
      }
    }
  }

  /** Lines 73 to 114 of `main`: the four labelled cells read in turn. */
  method ReadGeneralVars(rows: seq<Row>) returns (vars: map<string, Value>)
    ensures GeneralVars(rows, vars)
  {
    vars := map[];
    assert |"bestallare_namn"| == 15 && |"bestallare_email"| == 16;
    assert |"bestallare_telefon"| == 18 && |"kontaktperson_media"| == 19;
    vars := ReadLabelled(vars, rows, 1, NameLabel, "bestallare_namn");
    assert Lookup(vars, "bestallare_namn") == AsStr(LabelledValue(rows, 1, NameLabel));
    assert vars.Keys <= {"bestallare_namn"};
    vars := ReadLabelled(vars, rows, 2, EmailLabel, "bestallare_email");
    assert Lookup(vars, "bestallare_email") == AsStr(LabelledValue(rows, 2, EmailLabel));
    assert vars.Keys <= {"bestallare_namn", "bestallare_email"};
    vars := ReadLabelled(vars, rows, 3, PhoneLabel, "bestallare_telefon");
    assert Lookup(vars, "bestallare_telefon") == AsStr(LabelledValue(rows, 3, PhoneLabel));
    assert vars.Keys <= {"bestallare_namn", "bestallare_email", "bestallare_telefon"};
    vars := ReadLabelled(vars, rows, 4, MediaLabel, "kontaktperson_media");
  }

  /**
   * A cell that starts with its label and has no further occurrence of it
   * gives the rest of the cell, trimmed; and every value has no whitespace
   * at either end.
   */
  lemma LabelledValueOfLabelledCell(rows: seq<Row>, r: nat, caption: string, rest: string)
    requires r < |rows| && 1 < |rows[r]| && rows[r][1] == caption + rest
    requires caption != [] && !Contains(rest, caption)
    ensures LabelledValue(rows, r, caption) == Some(Trim(rest))
  {
    assert StartsWith(caption + rest, caption) by {
      assert (caption + rest)[..|caption|] == caption;
    }
    RemoveAllLeading(caption, rest);
    RemoveAllAbsent(rest, caption);
  }

  lemma LabelledValueTrimmed(rows: seq<Row>, r: nat, caption: string)
    requires LabelledValue(rows, r, caption).Some?
    ensures var v := LabelledValue(rows, r, caption).value;
      v == [] || (!IsWhitespace(v[0]) && !IsWhitespace(v[|v| - 1]))
  {
    TrimmedEnds(RemoveAll(rows[r][1], caption));
  }

  // ---------------------------------------------------------------------
  // Selecting data rows and grouping hosts
  // ---------------------------------------------------------------------

  /** The first data row: rows 0 to 6 are skipped and row 7 is the header. */
  const FirstDataRow := 8

  /** A row is a host when its name cell exists, is not blank and is not the header text "Name". */
  predicate Selected(row: Row) {
    |row| > 3 && !IsBlank(row[3]) && row[3] != "Name"
  }

  /** What a data row contributes: the group it goes to, the name it is stored under, and its host. */
  datatype Entry = Entry(group: string, name: string, host: AnsibleHost)

  /** The entry of a row that is a host, stored under its host name; nothing for any other row. */
  function EntryOf(row: Row): Option<Entry> {
    if Selected(row) then
      var host := RowHost(row);
      Some(Entry(DetermineGroup(host), HostName(host), host))
    else None
  }

  /** A row has an entry exactly when it is a host, and the entry stores the host under its name cell. */
  lemma EntryOfMeans(row: Row)
    ensures EntryOf(row).Some? <==> Selected(row)
    ensures Selected(row) ==> EntryOf(row) == Some(Entry(DetermineGroup(RowHost(row)), row[3], RowHost(row)))
  {
    if Selected(row) {
      RowHostName(row);
    }
  }

  /** `groups` with the entry's host stored under its name in its group, which is created empty when missing. */
  function Insert(groups: map<string, AnsibleGroup>, e: Entry): map<string, AnsibleGroup> {
    var group := if e.group in groups then groups[e.group] else AnsibleGroup(map[], None);
    groups[e.group := group.(hosts := group.hosts[e.name := e.host])]
  }

  /** The groups after inserting the entries in order. */
  function GroupAll(es: seq<Option<Entry>>): map<string, AnsibleGroup> {
    if es == [] then map[]
    else
      var before := GroupAll(es[..|es| - 1]);
      match es[|es| - 1]
      case None => before
      case Some(e) => Insert(before, e)
  }

  /** The entries of the data rows before `n`, one per row, from the first data row on. */
  function RowEntries(rows: seq<Row>, n: nat): (es: seq<Option<Entry>>)
    requires n <= |rows|
    ensures |es| == if n <= FirstDataRow then 0 else n - FirstDataRow
  {
    if n <= FirstDataRow then [] else RowEntries(rows, n - 1) + [EntryOf(rows[n - 1])]
  }

  /** The entry at position `k` is that of row `FirstDataRow + k`. */
  lemma {:induction false} RowEntriesAt(rows: seq<Row>, n: nat, k: nat)
    requires n <= |rows| && FirstDataRow + k < n
    ensures RowEntries(rows, n)[k] == EntryOf(rows[FirstDataRow + k])
  {
    if FirstDataRow + k < n - 1 {
      RowEntriesAt(rows, n - 1, k);
    }
  }

  /** The groups after the rows before `n`. */
  function Grouped(rows: seq<Row>, n: nat): map<string, AnsibleGroup>
    requires n <= |rows|
  {
    GroupAll(RowEntries(rows, n))
  }

  lemma GroupAllSnoc(es: seq<Option<Entry>>, e: Option<Entry>)
    ensures GroupAll(es + [e]) == match e case None => GroupAll(es) case Some(x) => Insert(GroupAll(es), x)
  {
    assert (es + [e])[..|es|] == es;
  }

  /** Stores a host under its name in a group, creating the group empty when it is missing. */
  method InsertHost(groups: map<string, AnsibleGroup>, groupName: string, hostname: string, host: AnsibleHost)
    returns (r: map<string, AnsibleGroup>)
    ensures r == Insert(groups, Entry(groupName, hostname, host))
  {
    r := groups;
    if groupName !in r {
      r := r[groupName := AnsibleGroup(map[], None)];
    }
    r := r[groupName := r[groupName].(hosts := r[groupName].hosts[hostname := host])];
  }

  /**
   * One iteration of the grouping loop of `main`: a row that is a host is
   * parsed, classified, and stored under its name in its group; any other
   * row is skipped.
   */
  method PlaceRow(groups: map<string, AnsibleGroup>, row: Row) returns (r: map<string, AnsibleGroup>)
    ensures r == match EntryOf(row) case None => groups case Some(e) => Insert(groups, e)
  {
    r := groups;
    EntryOfMeans(row);
    if 3 < |row| {
      var name := row[3];
      TrimEmptyIffBlank(name);
      if Trim(name) != [] && name != "Name" {
        var parsed := ParseServerRow(row);
        var host := parsed.value;
        var groupName := DetermineGroup(host);
        var hostname := HostName(host);
        RowHostName(row);
        r := InsertHost(r, groupName, hostname, host);
      }
    }
  }

  /** The grouping loop of `main`, over the data rows in order. */
  method GroupHosts(rows: seq<Row>) returns (groups: map<string, AnsibleGroup>)
    ensures groups == Grouped(rows, |rows|)
  {
    groups := map[];
    var i := FirstDataRow;
    while i < |rows|
      invariant FirstDataRow <= i
      invariant groups == Grouped(rows, if i <= |rows| then i else |rows|)
    {
      GroupAllSnoc(RowEntries(rows, i), EntryOf(rows[i]));
      groups := PlaceRow(groups, rows[i]);
      i := i + 1;
    }
  }

  /** Entry `i` stores a host named `name` in group `g`. */
  predicate At(es: seq<Option<Entry>>, i: int, g: string, name: string) {
    0 <= i < |es| && es[i].Some? && es[i].value.group == g && es[i].value.name == name
  }

  lemma {:induction false} GroupAllVarsUnset(es: seq<Option<Entry>>)
    ensures forall g :: g in GroupAll(es) ==> GroupAll(es)[g].vars.None?
  {
    if es != [] {
      GroupAllVarsUnset(es[..|es| - 1]);
    }
  }

  lemma {:induction false} GroupAllHostsPlaced(es: seq<Option<Entry>>)
    ensures forall g, name :: g in GroupAll(es) && name in GroupAll(es)[g].hosts ==> exists i :: At(es, i, g, name)
  {
    if es != [] {
      var init := es[..|es| - 1];
      GroupAllHostsPlaced(init);
      assert GroupAll(es) == match es[|es| - 1] case None => GroupAll(init) case Some(e) => Insert(GroupAll(init), e);
      forall g, name | g in GroupAll(es) && name in GroupAll(es)[g].hosts
        ensures exists i :: At(es, i, g, name)
      {
        if At(es, |es| - 1, g, name) {
        } else {
          assert g in GroupAll(init) && name in GroupAll(init)[g].hosts;
          var i :| At(init, i, g, name);
          assert es[i] == init[i];
          assert At(es, i, g, name);
        }
      }
    }
  }

  lemma {:induction false} GroupAllKeepsLast(es: seq<Option<Entry>>)
    ensures forall g, name, i ::
      (At(es, i, g, name) && (forall j :: i < j ==> !At(es, j, g, name))) ==>
      g in GroupAll(es) && name in GroupAll(es)[g].hosts && GroupAll(es)[g].hosts[name] == es[i].value.host
  {
    if es != [] {
      var init := es[..|es| - 1];
      GroupAllKeepsLast(init);
      forall g, name, i | At(es, i, g, name) && (forall j :: i < j ==> !At(es, j, g, name))
        ensures g in GroupAll(es) && name in GroupAll(es)[g].hosts && GroupAll(es)[g].hosts[name] == es[i].value.host
      {
        if i < |es| - 1 {
          assert At(init, i, g, name);
          forall j | i < j
            ensures !At(init, j, g, name)
          {
            assert !At(es, j, g, name);
          }
          assert !At(es, |es| - 1, g, name);
        }
      }
    }
  }

  /** Row `i` is a data row whose entry stores a host named `name` in group `g`. */
  predicate Places(rows: seq<Row>, i: int, g: string, name: string) {
    At(RowEntries(rows, |rows|), i - FirstDataRow, g, name)
  }

  /** Row `i` places a host exactly when it is a data row that is a host, classified into `g`, with name cell `name`. */
  lemma PlacesMeans(rows: seq<Row>, i: int, g: string, name: string)
    ensures Places(rows, i, g, name) <==>
      FirstDataRow <= i < |rows| && Selected(rows[i]) && DetermineGroup(RowHost(rows[i])) == g && rows[i][3] == name
  {
    if FirstDataRow <= i < |rows| {
      RowEntriesAt(rows, |rows|, i - FirstDataRow);
      EntryOfMeans(rows[i]);
    }
  }

  /** Every group the rows create has no variables of its own. */
  lemma GroupedVarsUnset(rows: seq<Row>)
    ensures forall g :: g in Grouped(rows, |rows|) ==> Grouped(rows, |rows|)[g].vars.None?
  {
    GroupAllVarsUnset(RowEntries(rows, |rows|));
  }

  /** A host is in a group exactly when some data row places it there. */
  lemma GroupedHosts(rows: seq<Row>, g: string, name: string)
    ensures g in Grouped(rows, |rows|) && name in Grouped(rows, |rows|)[g].hosts <==>
      exists i :: Places(rows, i, g, name)
  {
    var es := RowEntries(rows, |rows|);
    if g in GroupAll(es) && name in GroupAll(es)[g].hosts {
      GroupAllHostsPlaced(es);
      var k :| At(es, k, g, name);
      assert Places(rows, k + FirstDataRow, g, name);
    }
    if i :| Places(rows, i, g, name) {
      var k := LastAt(es, i - FirstDataRow, g, name);
      GroupAllKeepsLast(es);
    }
  }

  /** Among entries that store `name` in `g`, one after which no other does. */
  lemma {:induction false} LastAt(es: seq<Option<Entry>>, i: int, g: string, name: string) returns (k: int)
    requires At(es, i, g, name)
    ensures i <= k && At(es, k, g, name) && forall j :: k < j ==> !At(es, j, g, name)
    decreases |es| - i
  {
    if j :| i < j && At(es, j, g, name) {
      k := LastAt(es, j, g, name);
    } else {
      k := i;
    }
  }

  /** When several rows place the same name in the same group, the host of the last of them is kept. */
  lemma GroupedKeepsLast(rows: seq<Row>)
    ensures forall g, name, i ::
      (Places(rows, i, g, name) && (forall j :: i < j ==> !Places(rows, j, g, name))) ==>
      g in Grouped(rows, |rows|) && name in Grouped(rows, |rows|)[g].hosts &&
      Grouped(rows, |rows|)[g].hosts[name] == RowHost(rows[i])
  {
    var es := RowEntries(rows, |rows|);
    GroupAllKeepsLast(es);
    forall g, name, i | Places(rows, i, g, name) && (forall j :: i < j ==> !Places(rows, j, g, name))
      ensures g in GroupAll(es) && name in GroupAll(es)[g].hosts && GroupAll(es)[g].hosts[name] == RowHost(rows[i])
    {
      forall j | i - FirstDataRow < j
        ensures !At(es, j, g, name)
      {
        assert !Places(rows, j + FirstDataRow, g, name);
      }
      RowEntriesAt(rows, |rows|, i - FirstDataRow);
    }
  }

  /**
   * Lines 73 to 153 of `main`: the inventory's children are the grouped
   * hosts and its variables are the general variables.
   */
  method BuildInventory(rows: seq<Row>) returns (inventory: AnsibleInventory)
    ensures inventory.children == Grouped(rows, |rows|)
    ensures inventory.vars.Some? && GeneralVars(rows, inventory.vars.value)
  {
    var generalVars := ReadGeneralVars(rows);
    var groups := GroupHosts(rows);
    inventory := AnsibleInventory(groups, Some(generalVars));
  }
}
