/**
 Game modes and the reasons a match is voided, as the finite vocabularies the
 reducer's strings range over (src/core/game/GamemodeUtils.cpp).
 */
module Gamemodes {
  import opened Options

  datatype Mode =
    | Duel | Doubles | Standard | Chaos
    | Hoops | Rumble | Dropshot | SnowDay | Heatseeker
    | CasualMode | TournamentMode
    | Intermission | PrivateMatch | Season | Exhibition | Training | Workshop | LocalMatch | External
    | UnknownMode        // "unknown": a playlist without a canonical mode
    | Undetermined       // "Unknown": nothing could be inferred

  datatype Category =
    | CatBest | CatOneVOne | CatTwoVTwo | CatThreeVThree | CatCasual | CatTournament
    | CatHoops | CatRumble | CatDropshot | CatSnowDay | CatHeatseeker

  datatype Reason =
    | NoReason
    | IntermissionPlaylist | PrivateMatchPlaylist | SeasonPlaylist | ExhibitionPlaylist | TrainingPlaylist
    | WorkshopPlaylist | CustomTrainingEditorPlaylist | CustomTrainingPlaylist | LocalMatchPlaylist
    | OnlineFreeplayPlaylist
    | NonLiveReplay | UnknownPlaylistId | ExplicitNonCompetitiveContext | InvalidWinner
    | SpectatorBug | TeamUnknown | RoundNeverStarted | NeverActive | LobbyNeverFull
    | NotActive | AlreadyFinalized | MissingGuid | Untracked | UnknownTeamSize
    | MissingTrackerIdentity | PendingTracker | CasualPlaylistReason | CasualContextReason
    | Reported(text: string)

  predicate IsTrackedCompetitive(mode: Mode) {
    mode.TournamentMode? || IsTrackedRankedEarlyExit(mode)
  }

  predicate IsTrackedRankedEarlyExit(mode: Mode) {
    || mode.Duel? || mode.Doubles? || mode.Standard?
    || mode.Hoops? || mode.Rumble? || mode.Dropshot? || mode.SnowDay? || mode.Heatseeker?
  }

  function ExpectedTeamSize(mode: Mode): nat {
    match mode
    case Duel => 1
    case Doubles | Hoops | Heatseeker => 2
    case Standard | Rumble | Dropshot | SnowDay => 3
    case Chaos => 4
    case _ => 0
  }

  predicate Contains(text: string, part: string) {
    part <= text || (text != "" && Contains(text[1..], part))
  }

  function NormalizeArenaKey(name: string): string {
    if name == "" then ""
    else
      var c := name[0];
      var rest := NormalizeArenaKey(name[1..]);
      if 'A' <= c <= 'Z' then [c - 'A' + 'a'] + rest
      else if 'a' <= c <= 'z' || '0' <= c <= '9' then [c] + rest
      else rest
  }

  /** The exact arena keys that are not already caught by a substring rule are listed first. */
  function InferFromArenaName(name: string): Mode {
    var key := NormalizeArenaKey(name);
    if key == "" then Undetermined
    else if key == "theblock" || Contains(key, "hoops") || Contains(key, "dunkhouse") then Hoops
    else if Contains(key, "dropshot") || Contains(key, "shattershot") || Contains(key, "core707") then Dropshot
    else if Contains(key, "snow") || Contains(key, "hockey") then SnowDay
    else Undetermined
  }

  function InferFromPlayerCount(players: int): Mode {
    if players <= 0 then Undetermined
    else if players <= 2 then Duel
    else if players <= 4 then Doubles
    else if players <= 6 then Standard
    else Undetermined
  }

  /** `arenaMode` is what the arena's name alone says, `Undetermined` when it says nothing. */
  function InferFromSnapshot(maxPlayers: int, rosterSize: nat, category: Category, arenaMode: Mode): Mode {
    if arenaMode != Undetermined then arenaMode
    else if category == CatCasual then CasualMode
    else if category == CatTournament then TournamentMode
    else if category == CatRumble then Rumble
    else if category == CatHeatseeker then Heatseeker
    else InferFromPlayerCount(if maxPlayers > 0 then maxPlayers else rosterSize)
  }
}

/** What the inference of a mode comes to, by the words in an arena's name and the numbers of players. */
module GamemodeLaws {
  import opened Options
  import opened Gamemodes

  predicate OccursAt(text: string, part: string, i: int) {
    0 <= i <= |text| - |part| && text[i..i + |part|] == part
  }

  ghost predicate Occurs(text: string, part: string) {
    exists i :: OccursAt(text, part, i)
  }

  lemma {:induction false} ContainsMeans(text: string, part: string)
    ensures Contains(text, part) <==> Occurs(text, part)
  {
    hide OccursAt;
    StartsMeans(text, part);
    if text == "" {
      if i :| OccursAt(text, part, i) { OccursInside(text, part, i); }
    } else if !(part <= text) {
      ContainsMeans(text[1..], part);
      if i :| OccursAt(text[1..], part, i) {
        OccursInside(text[1..], part, i);
        OccursLater(text, part, i);
      }
      if i :| OccursAt(text, part, i) {
        OccursInside(text, part, i);
        OccursLater(text, part, i - 1);
      }
    }
  }

  lemma StartsMeans(text: string, part: string)
    ensures part <= text <==> OccursAt(text, part, 0)
  {}

  lemma OccursInside(text: string, part: string, i: int)
    requires OccursAt(text, part, i)
    ensures 0 <= i && (text == "" ==> i == 0)
  {}

  lemma OccursLater(text: string, part: string, i: nat)
    requires text != ""
    ensures OccursAt(text[1..], part, i) <==> OccursAt(text, part, i + 1)
  {
    if i + 1 + |part| <= |text| {
      assert text[1..][i..i + |part|] == text[i + 1..i + 1 + |part|];
    }
  }

  /** Letters in lower case and digits; anything else is dropped. */
  function KeyOf(c: char): string {
    if '0' <= c <= '9' || 'a' <= c <= 'z' then [c]
    else if 'A' <= c <= 'Z' then [(c as int + 32) as char]
    else ""
  }

  lemma {:induction false} KeyIsPerCharacter(name: string, c: char)
    ensures NormalizeArenaKey([c] + name) == KeyOf(c) + NormalizeArenaKey(name)
    ensures NormalizeArenaKey("") == ""
  {
    assert ([c] + name)[1..] == name;
  }

  /** Hoops arenas first, then dropshot, then snow day; a name without any of these words says nothing. */
  lemma ArenaMeans(name: string)
    ensures var key := NormalizeArenaKey(name);
      InferFromArenaName(name)
      == if key == "theblock" || Occurs(key, "hoops") || Occurs(key, "dunkhouse") then Hoops
         else if Occurs(key, "dropshot") || Occurs(key, "shattershot") || Occurs(key, "core707") then Dropshot
         else if Occurs(key, "snow") || Occurs(key, "hockey") then SnowDay else Undetermined
  {
    hide NormalizeArenaKey, Contains, Occurs, OccursAt;
    var key := NormalizeArenaKey(name);
    ContainsMeans(key, "hoops");
    ContainsMeans(key, "dunkhouse");
    ContainsMeans(key, "dropshot");
    ContainsMeans(key, "shattershot");
    ContainsMeans(key, "core707");
    ContainsMeans(key, "snow");
    ContainsMeans(key, "hockey");
    if key == "" {
      Nowhere("hoops");
      Nowhere("dunkhouse");
      Nowhere("dropshot");
      Nowhere("shattershot");
      Nowhere("core707");
      Nowhere("snow");
      Nowhere("hockey");
    }
  }

  lemma Nowhere(part: string)
    requires part != ""
    ensures !Occurs("", part)
  {}

  /** A mode inferred from the number of players has room for them, and not for two fewer. */
  lemma CountFillsTeams(players: int)
    ensures var mode := InferFromPlayerCount(players);
      && (mode == Undetermined <==> !(1 <= players <= 6))
      && (mode != Undetermined ==> 2 * ExpectedTeamSize(mode) - 1 <= players <= 2 * ExpectedTeamSize(mode))
      && (mode == Duel <==> 1 <= players <= 2) && (mode == Doubles <==> 3 <= players <= 4)
  {}

  /** Teams of one to four; the modes that are not played in full teams have no size. */
  lemma TeamSizes(mode: Mode)
    ensures ExpectedTeamSize(mode) == 1 <==> mode == Duel
    ensures ExpectedTeamSize(mode) == 2 <==> mode in {Doubles, Hoops, Heatseeker}
    ensures ExpectedTeamSize(mode) == 3 <==> mode in {Standard, Rumble, Dropshot, SnowDay}
    ensures ExpectedTeamSize(mode) == 4 <==> mode == Chaos
    ensures ExpectedTeamSize(mode) <= 4
    ensures IsTrackedRankedEarlyExit(mode) <==> ExpectedTeamSize(mode) > 0 && mode != Chaos
    ensures IsTrackedCompetitive(mode) <==> mode == TournamentMode || IsTrackedRankedEarlyExit(mode)
  {}
}

/** The playlist table and its lookups (src/core/game/PlaylistMetadata.cpp). */
module Playlists {
  import opened Options
  import opened Gamemodes

  datatype PlaylistClass = Casual | Ranked | Tournament | NonRecordable | Other

  datatype Info = Info(mode: Mode, mmrKey: Option<Mode>, kind: PlaylistClass,
                       category: Category, nonRecordable: Option<Reason>)

  function Unrecorded(mode: Mode, reason: Reason): Info {
    Info(mode, None, NonRecordable, CatBest, Some(reason))
  }

  predicate HasAuthoritativeId(id: int) {
    id != -1
  }

  /** The constant table, by playlist id. */
  function Find(id: int): Option<Info> {
    match id
    case 0 | 1 | 2 | 3 | 4 | 15 | 16 | 17 | 18 | 23 | 31 | 32 | 33 | 35 | 37 | 38 | 41 | 44 | 46 | 47
       | 48 | 49 | 50 | 52 | 54 | 55 | 61 | 62 | 64 | 65 | 66 | 67 | 68 | 70 | 72 | 74 | 75 | 76 | 77
       | 79 | 80 | 81 | 82 | 83 | 84 | 86 | 87 | 88 => Some(Info(CasualMode, Some(CasualMode), Casual, CatCasual, None))
    case 10 => Some(Info(Duel, Some(Duel), Ranked, CatOneVOne, None))
    case 11 => Some(Info(Doubles, Some(Doubles), Ranked, CatTwoVTwo, None))
    case 12 | 13 => Some(Info(Standard, Some(Standard), Ranked, CatThreeVThree, None))
    case 27 => Some(Info(Hoops, Some(Hoops), Ranked, CatHoops, None))
    case 28 => Some(Info(Rumble, Some(Rumble), Ranked, CatRumble, None))
    case 29 => Some(Info(Dropshot, Some(Dropshot), Ranked, CatDropshot, None))
    case 30 => Some(Info(SnowDay, Some(SnowDay), Ranked, CatSnowDay, None))
    case 43 | 63 => Some(Info(Heatseeker, Some(Heatseeker), Ranked, CatHeatseeker, None))
    case 22 | 34 => Some(Info(TournamentMode, Some(TournamentMode), Tournament, CatTournament, None))
    case 26 => Some(Info(External, None, Other, CatBest, None))
    case -2 => Some(Unrecorded(Intermission, IntermissionPlaylist))
    case 6 => Some(Unrecorded(PrivateMatch, PrivateMatchPlaylist))
    case 7 => Some(Unrecorded(Season, SeasonPlaylist))
    case 8 => Some(Unrecorded(Exhibition, ExhibitionPlaylist))
    case 9 => Some(Unrecorded(Training, TrainingPlaylist))
    case 19 => Some(Unrecorded(Workshop, WorkshopPlaylist))
    case 20 => Some(Unrecorded(Training, CustomTrainingEditorPlaylist))
    case 21 => Some(Unrecorded(Training, CustomTrainingPlaylist))
    case 24 => Some(Unrecorded(LocalMatch, LocalMatchPlaylist))
    case 73 => Some(Unrecorded(Training, OnlineFreeplayPlaylist))
    case _ => None
  }

  predicate IsKnown(id: int) {
    Find(id).Some?
  }

  predicate IsCasual(id: int) {
    Find(id).Some? && Find(id).value.kind == Casual
  }

  predicate IsNonRecordable(id: int) {
    Find(id).Some? && Find(id).value.kind == NonRecordable
  }

  function NonRecordableReason(id: int): Option<Reason> {
    if Find(id).Some? then Find(id).value.nonRecordable else None
  }

  function CanonicalMode(id: int): Option<Mode> {
    if Find(id).Some? then Some(Find(id).value.mode) else None
  }

  function MmrKey(id: int): Option<Mode> {
    if Find(id).Some? then Find(id).value.mmrKey else None
  }

  /** The classes, by ranges of ids. */
  predicate InClass(id: int, kind: PlaylistClass) {
    match kind
    case Casual =>
      || 0 <= id <= 4 || 15 <= id <= 18 || id == 23 || 31 <= id <= 33 || id == 35 || 37 <= id <= 38 || id == 41
      || id == 44 || 46 <= id <= 50 || id == 52 || 54 <= id <= 55 || 61 <= id <= 62 || 64 <= id <= 68 || id == 70
      || id == 72 || 74 <= id <= 77 || 79 <= id <= 84 || 86 <= id <= 88
    case Ranked => 10 <= id <= 13 || 27 <= id <= 30 || id == 43 || id == 63
    case Tournament => id == 22 || id == 34
    case NonRecordable => id == -2 || 6 <= id <= 9 || 19 <= id <= 21 || id == 24 || id == 73
    case Other => id == 26
  }

  /** Which playlists are in which class, no other id being known, and which ranked modes have two playlists. */
  lemma PlaylistClasses(id: int, kind: PlaylistClass)
    ensures Find(id).Some? && Find(id).value.kind == kind <==> InClass(id, kind)
    ensures InClass(id, Ranked) && CanonicalMode(id).value == Standard <==> 12 <= id <= 13
    ensures InClass(id, Ranked) && CanonicalMode(id).value == Heatseeker <==> id == 43 || id == 63
  {
  }

  /** The mode of each playlist that has one of its own. */
  lemma PlaylistModes(id: int)
    ensures CanonicalMode(id) == Some(Duel) <==> id == 10
    ensures CanonicalMode(id) == Some(Doubles) <==> id == 11
    ensures CanonicalMode(id) == Some(Standard) <==> 12 <= id <= 13
    ensures CanonicalMode(id) == Some(Hoops) <==> id == 27
    ensures CanonicalMode(id) == Some(Rumble) <==> id == 28
    ensures CanonicalMode(id) == Some(Dropshot) <==> id == 29
    ensures CanonicalMode(id) == Some(SnowDay) <==> id == 30
    ensures CanonicalMode(id) == Some(Heatseeker) <==> id == 43 || id == 63
    ensures CanonicalMode(id) == Some(TournamentMode) <==> InClass(id, Tournament)
  {}

  /** Why a match in each of the unrecorded playlists is void. */
  lemma PlaylistReasons(id: int)
    ensures NonRecordableReason(id) == Some(IntermissionPlaylist) <==> id == -2
    ensures NonRecordableReason(id) == Some(PrivateMatchPlaylist) <==> id == 6
    ensures NonRecordableReason(id) == Some(SeasonPlaylist) <==> id == 7
    ensures NonRecordableReason(id) == Some(ExhibitionPlaylist) <==> id == 8
    ensures NonRecordableReason(id) == Some(TrainingPlaylist) <==> id == 9
    ensures NonRecordableReason(id) == Some(WorkshopPlaylist) <==> id == 19
    ensures NonRecordableReason(id) == Some(CustomTrainingEditorPlaylist) <==> id == 20
    ensures NonRecordableReason(id) == Some(CustomTrainingPlaylist) <==> id == 21
    ensures NonRecordableReason(id) == Some(LocalMatchPlaylist) <==> id == 24
    ensures NonRecordableReason(id) == Some(OnlineFreeplayPlaylist) <==> id == 73
  {}

  /** What the reducer relies on in every row: the class decides the mode, the MMR key and the void reason. */
  lemma PlaylistTable(id: int)
    ensures !IsKnown(-1)
    ensures IsNonRecordable(id) <==> NonRecordableReason(id).Some?
    ensures IsKnown(id) ==> (IsTrackedRankedEarlyExit(CanonicalMode(id).value) <==> Find(id).value.kind == Ranked)
    ensures IsCasual(id) <==> CanonicalMode(id) == Some(CasualMode)
    ensures IsKnown(id) ==> (MmrKey(id) == CanonicalMode(id) <==> !IsNonRecordable(id) && Find(id).value.kind != Other)
  {
  }
}
