/**
  The enemy roster built from the configuration file. A line such as
  `Character: Stormtrooper, Door: B` puts one enemy of that kind on the door
  cell, appends it to that kind's list and records its start cell under its
  index. The last door letter seen stays in force for later lines.
*/
module Spawning {
  import opened Results
  import opened Text
  import opened Geometry
  import MapLoader

  datatype Kind = Stormtrooper | KyloRen | DarthVader

  /** The character name the configuration file uses for each kind. */
  function Name(k: Kind): string {
    match k
    case Stormtrooper => "Stormtrooper"
    case KyloRen => "Kyloren"
    case DarthVader => "Darthvader"
  }

  /** The kind a character name stands for; any other name spawns nothing. */
  function KindNamed(name: string): (k: Option<Kind>)
    ensures k.Some? ==> Name(k.value) == name
    ensures k.None? ==> forall j :: Name(j) != name
  {
    if name == "Stormtrooper" then Some(Stormtrooper)
    else if name == "Kyloren" then Some(KyloRen)
    else if name == "Darthvader" then Some(DarthVader)
    else None
  }

  /** The letter the configuration file uses for each door. */
  function Letter(d: Door): string {
    match d
    case A => "A"
    case B => "B"
    case C => "C"
    case D => "D"
    case E => "E"
  }

  /** The door a letter names; any other text names none. */
  function DoorLettered(s: string): (d: Option<Door>)
    ensures d.Some? ==> Letter(d.value) == s
    ensures d.None? ==> forall j :: Letter(j) != s
  {
    if s == "A" then Some(A)
    else if s == "B" then Some(B)
    else if s == "C" then Some(C)
    else if s == "D" then Some(D)
    else if s == "E" then Some(E)
    else None
  }

  /** The state of the spawn loop: the door coordinates last assigned (none
      before the first recognised letter), the three enemy lists, and the three
      start-position dictionaries keyed by index. Enemies are their cells. */
  datatype Roster = Roster(
    door: Option<Pos>,
    troopers: seq<Pos>, kylos: seq<Pos>, vaders: seq<Pos>,
    trooperStarts: map<nat, Pos>, kyloStarts: map<nat, Pos>, vaderStarts: map<nat, Pos>)

  const Empty := Roster(None, [], [], [], map[], map[], map[])

  function Enemies(r: Roster, k: Kind): seq<Pos> {
    match k
    case Stormtrooper => r.troopers
    case KyloRen => r.kylos
    case DarthVader => r.vaders
  }

  function Starts(r: Roster, k: Kind): map<nat, Pos> {
    match k
    case Stormtrooper => r.trooperStarts
    case KyloRen => r.kyloStarts
    case DarthVader => r.vaderStarts
  }

  /** One more enemy of kind `k` at `p`, registered under the next index. */
  function Spawn(r: Roster, k: Kind, p: Pos): (r': Roster)
    ensures Enemies(r', k) == Enemies(r, k) + [p]
    ensures Starts(r', k) == Starts(r, k)[|Enemies(r, k)| := p]
    ensures forall j :: j != k ==> Enemies(r', j) == Enemies(r, j) && Starts(r', j) == Starts(r, j)
    ensures r'.door == r.door
  {
    match k
    case Stormtrooper => r.(troopers := r.troopers + [p], trooperStarts := r.trooperStarts[|r.troopers| := p])
    case KyloRen => r.(kylos := r.kylos + [p], kyloStarts := r.kyloStarts[|r.kylos| := p])
    case DarthVader => r.(vaders := r.vaders + [p], vaderStarts := r.vaderStarts[|r.vaders| := p])
  }

  /** The character and door texts of a spawn line. */
  datatype Request = Request(character: string, door: string)

  /** A line is a spawn line when, stripped, it mentions both `Character:` and
      `Door:`. The character is the text after the first `:` of the part
      before the first `,`; the door is the text after the first `:` of the
      part after it. A part or a `:` that is missing is an `IndexError`. */
  function ParseRequest(raw: string): (r: Result<Option<Request>>)
    ensures var line := Strip(raw);
      r.Ok? && r.value.None? <==> !(Contains(line, "Character:") && Contains(line, "Door:"))
    ensures var line := Strip(raw); var parts := Split(line, ',');
      r.Err? <==>
        Contains(line, "Character:") && Contains(line, "Door:") &&
        (',' !in line || ':' !in parts[0] || ':' !in parts[1])
  {
    var line := Strip(raw);
    if !(Contains(line, "Character:") && Contains(line, "Door:")) then Ok(None)
    else
      var parts := Split(line, ',');
      var head := Split(parts[0], ':');
      if |head| < 2 || |parts| < 2 then Err("IndexError: list index out of range")
      else
        var tail := Split(parts[1], ':');
        if |tail| < 2 then Err("IndexError: list index out of range")
        else Ok(Some(Request(Strip(head[1]), Strip(tail[1]))))
  }

  /** The loop body for a parsed spawn line: a recognised letter replaces the
      door; a recognised name spawns an enemy on the door in force, which is a
      `NameError` when no letter was ever recognised. */
  function Apply(r: Roster, q: Request): (res: Result<Roster>)
    ensures res.Err? <==> KindNamed(q.character).Some? && DoorLettered(q.door).None? && r.door.None?
    ensures res.Ok? ==> res.value.door == (if DoorLettered(q.door).Some? then Some(DoorPos(DoorLettered(q.door).value)) else r.door)
    ensures res.Ok? ==> forall k ::
      if KindNamed(q.character) == Some(k) then
        res.value.door.Some? &&
        Enemies(res.value, k) == Enemies(r, k) + [res.value.door.value] &&
        Starts(res.value, k) == Starts(r, k)[|Enemies(r, k)| := res.value.door.value]
      else
        Enemies(res.value, k) == Enemies(r, k) && Starts(res.value, k) == Starts(r, k)
  {
    var door := match DoorLettered(q.door)
      case Some(d) => Some(DoorPos(d))
      case None => r.door;
    var r1 := r.(door := door);
    match KindNamed(q.character)
    case None => Ok(r1)
    case Some(k) =>
      if door.None? then Err("NameError: name 'door_x' is not defined")
      else Ok(Spawn(r1, k, door.value))
  }

  function SpawnLine(r: Roster, raw: string): Result<Roster> {
    match ParseRequest(raw)
    case Err(e) => Err(e)
    case Ok(None) => Ok(r)
    case Ok(Some(q)) => Apply(r, q)
  }

  /** The roster after the loop has run over the lines; the first error ends it. */
  function Spawned(lines: seq<string>): Result<Roster> {
    if lines == [] then Ok(Empty)
    else
      match Spawned(lines[..|lines| - 1])
      case Err(e) => Err(e)
      case Ok(r) => SpawnLine(r, lines[|lines| - 1])
  }

  /** The spawn loop over the lines of the configuration file. */
  method SpawnEnemies(lines: seq<string>) returns (res: Result<Roster>)
    ensures res == Spawned(lines)
  {
    var door: Option<Pos> := None;
    var troopers: seq<Pos>, kylos: seq<Pos>, vaders: seq<Pos> := [], [], [];
    var trooperStarts: map<nat, Pos>, kyloStarts: map<nat, Pos>, vaderStarts: map<nat, Pos> := map[], map[], map[];
    for i := 0 to |lines|
      invariant Spawned(lines[..i]) == Ok(Roster(door, troopers, kylos, vaders, trooperStarts, kyloStarts, vaderStarts))
    {
      ghost var r0 := Roster(door, troopers, kylos, vaders, trooperStarts, kyloStarts, vaderStarts);
      SpawnedNext(lines, i, r0);
      var q := ParseRequest(lines[i]);
      if q.Err? {
        SpawnFailsAt(lines, i);
        return Err(q.reason);
      }
      if q.value.Some? {
        var req := q.value.value;
        var letter := DoorLettered(req.door);
        if letter.Some? {
          door := Some(DoorPos(letter.value));
        }
        var kind := KindNamed(req.character);
        if kind.Some? {
          if door.None? {
            assert Spawned(lines[..i + 1]) == Apply(r0, req) == Err("NameError: name 'door_x' is not defined");
            SpawnFailsAt(lines, i);
            return Err("NameError: name 'door_x' is not defined");
          }
          var p := door.value;
          match kind.value {
            case Stormtrooper =>
              trooperStarts := trooperStarts[|troopers| := p];
              troopers := troopers + [p];
            case KyloRen =>
              kyloStarts := kyloStarts[|kylos| := p];
              kylos := kylos + [p];
            case DarthVader =>
              vaderStarts := vaderStarts[|vaders| := p];
              vaders := vaders + [p];
          }
        }
      }
    }
    assert lines[..|lines|] == lines;
    return Ok(Roster(door, troopers, kylos, vaders, trooperStarts, kyloStarts, vaderStarts));
  }

  /** One more line: the roster so far, then that line's step. */
  lemma SpawnedNext(lines: seq<string>, i: nat, r: Roster)
    requires i < |lines| && Spawned(lines[..i]) == Ok(r)
    ensures Spawned(lines[..i + 1]) == SpawnLine(r, lines[i])
  {
    assert lines[..i + 1][..i] == lines[..i];
  }

  /** A failure at line `i` is the outcome for the whole file. */
  lemma SpawnFailsAt(lines: seq<string>, i: nat)
    requires i < |lines| && Spawned(lines[..i + 1]).Err?
    ensures Spawned(lines) == Spawned(lines[..i + 1])
  {
    assert lines[..i + 1] + lines[i + 1..] == lines;
    SpawnErrorSticks(lines[..i + 1], lines[i + 1..]);
  }

  /** Once the loop has failed, no later line changes the outcome. */
  lemma {:induction false} SpawnErrorSticks(lines: seq<string>, more: seq<string>)
    requires Spawned(lines).Err?
    ensures Spawned(lines + more) == Spawned(lines)
  {
    if more == [] {
      assert lines + more == lines;
    } else {
      var all := lines + more;
      var init := lines + more[..|more| - 1];
      assert all[..|all| - 1] == init;
      SpawnErrorSticks(lines, more[..|more| - 1]);
      assert Spawned(all) == Spawned(init);
    }
  }

  predicate IsDoor(p: Pos) {
    exists d: Door :: DoorPos(d) == p
  }

  /** What the loop keeps true: each start dictionary has exactly the indices
      of its list and maps each to that enemy's cell, and every enemy and the
      door in force lie on a door cell. */
  predicate WellSpawned(r: Roster) {
    (r.door.Some? ==> IsDoor(r.door.value)) &&
    forall k :: KindConsistent(Enemies(r, k), Starts(r, k))
  }

  predicate KindConsistent(enemies: seq<Pos>, starts: map<nat, Pos>) {
    (forall i :: i in starts ==> i < |enemies|) &&
    (forall i :: 0 <= i < |enemies| ==> i in starts && starts[i] == enemies[i] && IsDoor(enemies[i]))
  }

  /** Each kind's list only grows, and by one enemy at most over all kinds. */
  predicate Extends(r: Roster, r': Roster) {
    (forall k :: |Enemies(r, k)| <= |Enemies(r', k)| && Enemies(r', k)[..|Enemies(r, k)|] == Enemies(r, k)) &&
    |r'.troopers| + |r'.kylos| + |r'.vaders| <= |r.troopers| + |r.kylos| + |r.vaders| + 1
  }

  lemma SpawnKeeps(r: Roster, k: Kind, p: Pos)
    requires WellSpawned(r) && IsDoor(p)
    ensures WellSpawned(Spawn(r, k, p)) && Extends(r, Spawn(r, k, p))
  {
    var r' := Spawn(r, k, p);
    var e := Enemies(r, k);
    assert KindConsistent(Enemies(r', k), Starts(r', k)) by {
      assert KindConsistent(e, Starts(r, k));
      forall i | 0 <= i < |e| + 1
        ensures Starts(r', k)[i] == Enemies(r', k)[i] && IsDoor(Enemies(r', k)[i])
      {
        if i < |e| {
          assert Enemies(r', k)[i] == e[i];
        }
      }
    }
    assert Enemies(r', k)[..|e|] == e;
  }

  /** Moving the door in force to another door cell keeps the roster well formed. */
  lemma DoorKeeps(r: Roster, door: Option<Pos>)
    requires WellSpawned(r) && (door.Some? ==> IsDoor(door.value))
    ensures WellSpawned(r.(door := door)) && Extends(r, r.(door := door))
  {
    var r1 := r.(door := door);
    forall k ensures Enemies(r1, k) == Enemies(r, k) && Starts(r1, k) == Starts(r, k) {
    }
    forall k ensures Enemies(r1, k)[..|Enemies(r, k)|] == Enemies(r, k) {
    }
  }

  lemma ApplyKeeps(r: Roster, q: Request)
    requires WellSpawned(r) && Apply(r, q).Ok?
    ensures WellSpawned(Apply(r, q).value) && Extends(r, Apply(r, q).value)
  {
    var door := match DoorLettered(q.door)
      case Some(d) => Some(DoorPos(d))
      case None => r.door;
    var r1 := r.(door := door);
    DoorKeeps(r, door);
    if KindNamed(q.character).Some? {
      var r2 := Spawn(r1, KindNamed(q.character).value, door.value);
      SpawnKeeps(r1, KindNamed(q.character).value, door.value);
      ExtendsTrans(r, r1, r2);
    }
  }

  lemma ExtendsTrans(r: Roster, r1: Roster, r2: Roster)
    requires Extends(r, r1) && Extends(r1, r2)
    requires forall k :: Enemies(r1, k) == Enemies(r, k)
    ensures Extends(r, r2)
  {
    assert Enemies(r1, Stormtrooper) == Enemies(r, Stormtrooper);
    assert Enemies(r1, KyloRen) == Enemies(r, KyloRen);
    assert Enemies(r1, DarthVader) == Enemies(r, DarthVader);
  }

  /** One line keeps the roster well formed and adds at most one enemy. */
  lemma SpawnLineKeeps(r: Roster, raw: string)
    requires WellSpawned(r) && SpawnLine(r, raw).Ok?
    ensures WellSpawned(SpawnLine(r, raw).value) && Extends(r, SpawnLine(r, raw).value)
  {
    var q := ParseRequest(raw);
    if q.value.Some? {
      ApplyKeeps(r, q.value.value);
    } else {
      DoorKeeps(r, r.door);
      assert r.(door := r.door) == r;
    }
  }

  /** Every roster the loop produces is well formed. */
  lemma {:induction false} SpawnedWell(lines: seq<string>)
    requires Spawned(lines).Ok?
    ensures WellSpawned(Spawned(lines).value)
  {
    if lines != [] {
      SpawnedWell(lines[..|lines| - 1]);
      SpawnLineKeeps(Spawned(lines[..|lines| - 1]).value, lines[|lines| - 1]);
    } else {
      assert forall k :: Enemies(Empty, k) == [] && Starts(Empty, k) == map[];
    }
  }

  /** The line the configuration file uses to place an enemy of kind `k` at
      door `d`: `Character: <name>, Door: <letter>`. */
  function SpawnText(k: Kind, d: Door): string {
    SpawnHead(k) + "," + SpawnTail(d)
  }

  function SpawnHead(k: Kind): string {
    "Character: " + Name(k)
  }

  function SpawnTail(d: Door): string {
    " Door: " + Letter(d)
  }

  /** Reading such a line makes `d` the door in force and spawns one enemy of
      kind `k` on it; the map loader skips the line. */
  lemma SpawnTextRead(r: Roster, k: Kind, d: Door)
    ensures SpawnLine(r, SpawnText(k, d)) == Ok(Spawn(r.(door := Some(DoorPos(d))), k, DoorPos(d)))
    ensures !MapLoader.IsGridLine(SpawnText(k, d))
  {
    SpawnTextShape(k, d);
    SpawnTextRequest(k, d);
    NameKnown(k);
    LetterKnown(d);
  }

  /** The spawn text needs no stripping, starts with `Character` and
      mentions both keys. */
  lemma SpawnTextShape(k: Kind, d: Door)
    ensures var line := SpawnText(k, d);
      Strip(line) == line && StartsWith(line, "Character") &&
      Contains(line, "Character:") && Contains(line, "Door:")
  {
    var line := SpawnText(k, d);
    var head := SpawnHead(k);
    assert Strip(line) == line by {
      WordShape(Letter(d));
      assert line[0] == 'C' && line[|line| - 1] == Letter(d)[0];
      StripPadded("", line, "");
      assert "" + line + "" == line;
    }
    assert line[..10] == "Character:";
    assert line[..9] == "Character";
    ContainsAt(line, "Character:", 0);
    assert line[|head| + 2..|head| + 7] == "Door:";
    ContainsAt(line, "Door:", |head| + 2);
  }

  /** The character and door fields of the spawn text are the name and letter. */
  lemma SpawnTextRequest(k: Kind, d: Door)
    ensures ParseRequest(SpawnText(k, d)) == Ok(Some(Request(Name(k), Letter(d))))
  {
    var line := SpawnText(k, d);
    assert Strip(line) == line && Contains(line, "Character:") && Contains(line, "Door:") by {
      SpawnTextShape(k, d);
    }
    var parts := Split(line, ',');
    var head := Split(parts[0], ':');
    var tail := Split(parts[1], ':');
    assert |parts| == 2 && |head| == 2 && |tail| == 2 by {
      SpawnTextSplits(k, d);
    }
    assert Strip(head[1]) == Name(k) by {
      SpawnTextSplits(k, d);
      WordShape(Name(k));
      PaddedWord(Name(k));
    }
    assert Strip(tail[1]) == Letter(d) by {
      SpawnTextSplits(k, d);
      WordShape(Letter(d));
      PaddedWord(Letter(d));
    }
  }

  lemma SpawnTextSplits(k: Kind, d: Door)
    ensures Split(SpawnText(k, d), ',') == [SpawnHead(k), SpawnTail(d)]
    ensures Split(SpawnHead(k), ':') == ["Character", " " + Name(k)]
    ensures Split(SpawnTail(d), ':') == [" Door", " " + Letter(d)]
  {
    LineSplits(k, d);
    HeadSplits(k);
    TailSplits(d);
  }

  lemma LineSplits(k: Kind, d: Door)
    ensures Split(SpawnText(k, d), ',') == [SpawnHead(k), SpawnTail(d)]
  {
    var head := SpawnHead(k);
    var tail := SpawnTail(d);
    WordShape(Name(k));
    WordShape(Letter(d));
    assert ',' !in head && ',' !in tail;
    assert SpawnText(k, d) == head + [','] + tail;
    SplitPair(head, tail, ',');
  }

  lemma HeadSplits(k: Kind)
    ensures Split(SpawnHead(k), ':') == ["Character", " " + Name(k)]
  {
    WordShape(Name(k));
    assert SpawnHead(k) == "Character" + [':'] + (" " + Name(k));
    SplitPair("Character", " " + Name(k), ':');
  }

  lemma TailSplits(d: Door)
    ensures Split(SpawnTail(d), ':') == [" Door", " " + Letter(d)]
  {
    WordShape(Letter(d));
    assert SpawnTail(d) == " Door" + [':'] + (" " + Letter(d));
    SplitPair(" Door", " " + Letter(d), ':');
  }

  /** A name or a door letter: non-empty, without separators, and not
      starting or ending with white space. */
  predicate Word(s: string) {
    |s| > 0 && ',' !in s && ':' !in s && !IsSpace(s[0]) && !IsSpace(s[|s| - 1])
  }

  lemma WordShape(s: string)
    requires s in {"Stormtrooper", "Kyloren", "Darthvader", "A", "B", "C", "D", "E"}
    ensures Word(s)
  {
  }

  lemma PaddedWord(s: string)
    requires Word(s)
    ensures Strip(" " + s) == s
  {
    StripPadded(" ", s, "");
    assert " " + s + "" == " " + s;
  }

  lemma NameKnown(k: Kind)
    ensures KindNamed(Name(k)) == Some(k)
  {
  }

  lemma LetterKnown(d: Door)
    ensures DoorLettered(Letter(d)) == Some(d)
  {
  }

  /** Two pieces free of the separator split back apart. */
  lemma SplitPair(a: string, b: string, sep: char)
    requires sep !in a && sep !in b
    ensures Split(a + [sep] + b, sep) == [a, b]
  {
    assert [a, b][1..] == [b];
    assert Join([a, b], sep) == a + [sep] + b;
    SplitJoin([a, b], sep);
  }

  /** `sub in s` holds when `sub` occurs at position `i`. */
  lemma {:induction false} ContainsAt(s: string, sub: string, i: nat)
    requires i + |sub| <= |s| && s[i..i + |sub|] == sub
    ensures Contains(s, sub)
  {
    if i > 0 {
      assert s[1..][i - 1..i - 1 + |sub|] == sub;
      ContainsAt(s[1..], sub, i - 1);
    } else {
      assert s[..|sub|] == sub;
    }
  }

  /** `sub in s` needs the first character of `sub` in `s`. */
  lemma {:induction false} ContainsFirst(s: string, sub: string)
    requires sub != [] && Contains(s, sub)
    ensures sub[0] in s
  {
    if StartsWith(s, sub) {
      assert s[0] == s[..|sub|][0];
    } else {
      ContainsFirst(s[1..], sub);
      assert s[1..] == s[1..];
    }
  }

  /** Joined pieces hold a character only if a piece or the separator does. */
  lemma {:induction false} JoinAvoids(parts: seq<string>, sep: char, c: char)
    requires |parts| > 0 && c != sep && forall i :: 0 <= i < |parts| ==> c !in parts[i]
    ensures c !in Join(parts, sep)
  {
    if |parts| > 1 {
      JoinAvoids(parts[1..], sep, c);
    }
  }

  /** A grid row, as the file holds it, spawns nothing. */
  lemma GridRowSpawnsNothing(row: seq<int>)
    requires |row| > 0
    ensures ParseRequest(MapLoader.RenderRow(row)) == Ok(None)
  {
    var line := MapLoader.RenderRow(row);
    var fields := MapLoader.RenderFields(row);
    MapLoader.RowStripped(row);
    forall i | 0 <= i < |fields| ensures 'C' !in fields[i] {
      assert fields[i] == Decimal(row[i]);
    }
    JoinAvoids(fields, '\t', 'C');
    if Contains(line, "Character:") {
      ContainsFirst(line, "Character:");
    }
  }

  /** Lines that are not spawn lines leave the roster as it is. */
  lemma {:induction false} QuietLinesSkipped(lines: seq<string>, extra: seq<string>)
    requires forall i :: 0 <= i < |extra| ==> ParseRequest(extra[i]) == Ok(None)
    ensures Spawned(lines + extra) == Spawned(lines)
  {
    if extra == [] {
      assert lines + extra == lines;
    } else {
      var all := lines + extra;
      var init := extra[..|extra| - 1];
      assert all[..|all| - 1] == lines + init;
      assert all[|all| - 1] == extra[|extra| - 1];
      QuietLinesSkipped(lines, init);
    }
  }

  /** The grid rows in the configuration file do not change the roster. */
  lemma GridSpawnsNothing(lines: seq<string>, g: seq<seq<int>>)
    requires forall r :: 0 <= r < |g| ==> |g[r]| > 0
    ensures Spawned(lines + MapLoader.RenderMap(g)) == Spawned(lines)
  {
    var rows := MapLoader.RenderMap(g);
    forall i | 0 <= i < |rows| ensures ParseRequest(rows[i]) == Ok(None) {
      GridRowSpawnsNothing(g[i]);
    }
    QuietLinesSkipped(lines, rows);
  }
}
