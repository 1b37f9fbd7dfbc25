/** Account patches: members, locals and columns, and the lines of code that connect them. */
module AccountLines {

  /** The members of a patch, each of which may be absent. */
  datatype Field =
    | ServerId | SwDailyAttempts | SwHighScore | SwHighestWave | SwLastUpdate | ClanKills | ClanDeaths
    | ClanAssists | ClanContribution | ClanWins | ClanLoses | ClanDraws | SelectedCharacter | PlayTime | Story
    | AchievementTier1 | GuideMission | VoiceType | BTutorial | MaximumItems | MaximumEnergy | Experience | Level
    | LuckyPoints | Wins | Loses | Draws | Kills | Deaths | Assists | Headshots | HighestKillStreak | MeleeKills
    | RifleKills | ShotgunKills | SniperKills | GatlingKills | BazookaKills | GrenadeKills | ZombieKills
    | Infections | Nickname

  /** The local variables the patches are merged into. */
  datatype Local =
    | ServerId | SwDailyAttempts | SwHighScore | SwHighestWave | SwLastUpdate | ClanKills | ClanDeaths
    | ClanAssists | ClanContribution | ClanWins | ClanLoses | ClanDraws | SelectedCharacter | PlayTime | Story
    | Achievement | Voice | Tutorial | Guide | Exp | MaxItems | MaxEnergy | Lvl | Lucky | Wins | Loses | Draws
    | Kills | Deaths | Assists | Headshots | HighestKillStreak | MeleeKills | RifleKills | ShotgunKills
    | SniperKills | GatlingKills | BazookaKills | GrenadeKills | ZombieKills | Infections | Nickname

  /** The columns of the table. */
  datatype Column =
    | ServerId | SingleWaveDailyAttempts | SingleWaveHighScore | SingleWaveHighestWave | SingleWaveLastUpdate
    | ClanKills | ClanDeaths | ClanAssists | ClanContribution | ClanWins | ClanLoses | ClanDraws
    | SelectedCharacter | PlayTime | Story | Achievement | VoiceType | Tutorial | GuideMission | Experience
    | MaximumItems | MaximumEnergy | Level | LuckyPoints | Wins | Loses | Draws | Kills | Deaths | Assists
    | Headshots | HighestKillStreak | MeleeKills | RifleKills | ShotgunKills | SniperKills | GatlingKills
    | BazookaKills | GrenadeKills | ZombieKills | Infections | Nickname

  datatype Value = Number(n: int) | Flag(b: bool) | Text(s: string)

  type Patch = map<Field, Value>
  type Locals = map<Local, Value>
  type Row = map<Column, Value>
  type Accounts = map<int, Row>

  /** What the patch is for: the member that sets a column. */
  function FieldAt(c: Column): Field {
    match c
    case ServerId => Field.ServerId case SingleWaveDailyAttempts => Field.SwDailyAttempts
    case SingleWaveHighScore => Field.SwHighScore case SingleWaveHighestWave => Field.SwHighestWave
    case SingleWaveLastUpdate => Field.SwLastUpdate case ClanKills => Field.ClanKills
    case ClanDeaths => Field.ClanDeaths case ClanAssists => Field.ClanAssists
    case ClanContribution => Field.ClanContribution case ClanWins => Field.ClanWins
    case ClanLoses => Field.ClanLoses case ClanDraws => Field.ClanDraws
    case SelectedCharacter => Field.SelectedCharacter case PlayTime => Field.PlayTime case Story => Field.Story
    case Achievement => Field.AchievementTier1 case VoiceType => Field.VoiceType case Tutorial => Field.BTutorial
    case GuideMission => Field.GuideMission case Experience => Field.Experience
    case MaximumItems => Field.MaximumItems case MaximumEnergy => Field.MaximumEnergy case Level => Field.Level
    case LuckyPoints => Field.LuckyPoints case Wins => Field.Wins case Loses => Field.Loses
    case Draws => Field.Draws case Kills => Field.Kills case Deaths => Field.Deaths case Assists => Field.Assists
    case Headshots => Field.Headshots case HighestKillStreak => Field.HighestKillStreak
    case MeleeKills => Field.MeleeKills case RifleKills => Field.RifleKills case ShotgunKills => Field.ShotgunKills
    case SniperKills => Field.SniperKills case GatlingKills => Field.GatlingKills
    case BazookaKills => Field.BazookaKills case GrenadeKills => Field.GrenadeKills
    case ZombieKills => Field.ZombieKills case Infections => Field.Infections case Nickname => Field.Nickname
  }

  /** The member that is meant for a local. */
  function FieldOf(l: Local): Field {
    match l
    case ServerId => Field.ServerId case SwDailyAttempts => Field.SwDailyAttempts
    case SwHighScore => Field.SwHighScore case SwHighestWave => Field.SwHighestWave
    case SwLastUpdate => Field.SwLastUpdate case ClanKills => Field.ClanKills case ClanDeaths => Field.ClanDeaths
    case ClanAssists => Field.ClanAssists case ClanContribution => Field.ClanContribution
    case ClanWins => Field.ClanWins case ClanLoses => Field.ClanLoses case ClanDraws => Field.ClanDraws
    case SelectedCharacter => Field.SelectedCharacter case PlayTime => Field.PlayTime case Story => Field.Story
    case Achievement => Field.AchievementTier1 case Voice => Field.VoiceType case Tutorial => Field.BTutorial
    case Guide => Field.GuideMission case Exp => Field.Experience case MaxItems => Field.MaximumItems
    case MaxEnergy => Field.MaximumEnergy case Lvl => Field.Level case Lucky => Field.LuckyPoints
    case Wins => Field.Wins case Loses => Field.Loses case Draws => Field.Draws case Kills => Field.Kills
    case Deaths => Field.Deaths case Assists => Field.Assists case Headshots => Field.Headshots
    case HighestKillStreak => Field.HighestKillStreak case MeleeKills => Field.MeleeKills
    case RifleKills => Field.RifleKills case ShotgunKills => Field.ShotgunKills
    case SniperKills => Field.SniperKills case GatlingKills => Field.GatlingKills
    case BazookaKills => Field.BazookaKills case GrenadeKills => Field.GrenadeKills
    case ZombieKills => Field.ZombieKills case Infections => Field.Infections case Nickname => Field.Nickname
  }

  /** One line of each of the four passages that go through the values: `field` is merged into
      `into`; `tested` is looked at for an empty merge; `column` is named if `when` has a
      value; and the value of `value` is bound if `bound` has one. */
  datatype Line = Line(field: Field, into: Local, tested: Local, when: Local, column: Column,
                       bound: Local, value: Local)

  const LINES0: seq<Line> := [
    Line(Field.ServerId, Local.ServerId, Local.ServerId, Local.ServerId,
         Column.ServerId, Local.ServerId, Local.ServerId),
    Line(Field.SwDailyAttempts, Local.SwDailyAttempts, Local.SwDailyAttempts, Local.SwDailyAttempts,
         Column.SingleWaveDailyAttempts, Local.SwDailyAttempts, Local.SwDailyAttempts),
    Line(Field.SwHighScore, Local.SwHighScore, Local.SwHighScore, Local.SwHighScore,
         Column.SingleWaveHighScore, Local.SwHighScore, Local.SwHighScore),
    Line(Field.SwHighestWave, Local.SwHighestWave, Local.SwHighestWave, Local.SwHighestWave,
         Column.SingleWaveHighestWave, Local.SwHighestWave, Local.SwHighestWave),
    Line(Field.SwLastUpdate, Local.SwLastUpdate, Local.SwLastUpdate, Local.SwLastUpdate,
         Column.SingleWaveLastUpdate, Local.SwLastUpdate, Local.SwLastUpdate),
    Line(Field.ClanKills, Local.ClanKills, Local.ClanKills, Local.ClanKills,
         Column.ClanKills, Local.ClanKills, Local.ClanKills)]

  const LINES1: seq<Line> := [
    Line(Field.ClanDeaths, Local.ClanDeaths, Local.ClanDeaths, Local.ClanDeaths,
         Column.ClanDeaths, Local.ClanDeaths, Local.ClanDeaths),
    Line(Field.ClanAssists, Local.ClanAssists, Local.ClanAssists, Local.ClanAssists,
         Column.ClanAssists, Local.ClanAssists, Local.ClanAssists),
    Line(Field.ClanContribution, Local.ClanContribution, Local.ClanContribution, Local.ClanContribution,
         Column.ClanContribution, Local.ClanContribution, Local.ClanContribution),
    Line(Field.ClanWins, Local.ClanWins, Local.ClanWins, Local.ClanWins,
         Column.ClanWins, Local.ClanWins, Local.ClanWins),
    Line(Field.ClanLoses, Local.ClanLoses, Local.ClanLoses, Local.ClanLoses,
         Column.ClanLoses, Local.ClanLoses, Local.ClanLoses),
    Line(Field.ClanDraws, Local.ClanDraws, Local.ClanDraws, Local.ClanDraws,
         Column.ClanDraws, Local.ClanDraws, Local.ClanDraws)]

  const LINES2: seq<Line> := [
    Line(Field.SelectedCharacter, Local.SelectedCharacter, Local.SelectedCharacter, Local.SelectedCharacter,
         Column.SelectedCharacter, Local.SelectedCharacter, Local.SelectedCharacter),
    Line(Field.PlayTime, Local.PlayTime, Local.PlayTime, Local.PlayTime,
         Column.PlayTime, Local.PlayTime, Local.PlayTime),
    Line(Field.Story, Local.Story, Local.Story, Local.Story, Column.Story, Local.Story, Local.Story),
    Line(Field.AchievementTier1, Local.Achievement, Local.Achievement, Local.Achievement,
         Column.Achievement, Local.Achievement, Local.Achievement),
    Line(Field.VoiceType, Local.Voice, Local.Voice, Local.Voice, Column.VoiceType, Local.Voice, Local.Voice),
    Line(Field.BTutorial, Local.Tutorial, Local.Tutorial, Local.Tutorial,
         Column.Tutorial, Local.Tutorial, Local.Tutorial)]

  const LINES3: seq<Line> := [
    Line(Field.GuideMission, Local.Guide, Local.Guide, Local.Guide, Column.GuideMission, Local.Guide, Local.Guide),
    Line(Field.Experience, Local.Exp, Local.Exp, Local.Exp, Column.Experience, Local.Exp, Local.Exp),
    Line(Field.MaximumItems, Local.MaxItems, Local.MaxItems, Local.MaxItems,
         Column.MaximumItems, Local.MaxItems, Local.MaxItems),
    Line(Field.MaximumEnergy, Local.MaxEnergy, Local.MaxEnergy, Local.MaxEnergy,
         Column.MaximumEnergy, Local.MaxEnergy, Local.MaxEnergy),
    Line(Field.Level, Local.Lvl, Local.Lvl, Local.Lvl, Column.Level, Local.Lvl, Local.Lvl),
    Line(Field.LuckyPoints, Local.Lucky, Local.Lucky, Local.Lucky, Column.LuckyPoints, Local.Lucky, Local.Lucky)]

  const LINES4: seq<Line> := [
    Line(Field.Wins, Local.Wins, Local.Wins, Local.Wins, Column.Wins, Local.Wins, Local.Wins),
    Line(Field.Loses, Local.Loses, Local.Loses, Local.Loses, Column.Loses, Local.Loses, Local.Loses),
    Line(Field.Draws, Local.Draws, Local.Draws, Local.Draws, Column.Draws, Local.Draws, Local.Draws),
    Line(Field.Kills, Local.Kills, Local.Kills, Local.Kills, Column.Kills, Local.Kills, Local.Kills),
    Line(Field.Deaths, Local.Deaths, Local.Deaths, Local.Deaths, Column.Deaths, Local.Deaths, Local.Deaths),
    Line(Field.Assists, Local.Assists, Local.Assists, Local.Assists, Column.Assists, Local.Assists, Local.Assists)]

  const LINES5: seq<Line> := [
    Line(Field.Headshots, Local.Headshots, Local.Headshots, Local.Headshots,
         Column.Headshots, Local.Headshots, Local.Headshots),
    Line(Field.HighestKillStreak, Local.HighestKillStreak, Local.HighestKillStreak, Local.HighestKillStreak,
         Column.HighestKillStreak, Local.HighestKillStreak, Local.HighestKillStreak),
    Line(Field.MeleeKills, Local.MeleeKills, Local.MeleeKills, Local.MeleeKills,
         Column.MeleeKills, Local.MeleeKills, Local.MeleeKills),
    Line(Field.RifleKills, Local.RifleKills, Local.RifleKills, Local.RifleKills,
         Column.RifleKills, Local.RifleKills, Local.RifleKills),
    Line(Field.ShotgunKills, Local.ShotgunKills, Local.ShotgunKills, Local.ShotgunKills,
         Column.ShotgunKills, Local.ShotgunKills, Local.ShotgunKills),
    Line(Field.SniperKills, Local.SniperKills, Local.SniperKills, Local.SniperKills,
         Column.SniperKills, Local.SniperKills, Local.SniperKills)]

  const LINES6: seq<Line> := [
    Line(Field.GatlingKills, Local.GatlingKills, Local.GatlingKills, Local.GatlingKills,
         Column.GatlingKills, Local.GatlingKills, Local.GatlingKills),
    Line(Field.BazookaKills, Local.BazookaKills, Local.BazookaKills, Local.BazookaKills,
         Column.BazookaKills, Local.BazookaKills, Local.BazookaKills),
    Line(Field.GrenadeKills, Local.GrenadeKills, Local.GrenadeKills, Local.GrenadeKills,
         Column.GrenadeKills, Local.GrenadeKills, Local.GrenadeKills),
    Line(Field.ZombieKills, Local.ZombieKills, Local.ZombieKills, Local.ZombieKills,
         Column.ZombieKills, Local.ZombieKills, Local.ZombieKills),
    Line(Field.Infections, Local.Infections, Local.Infections, Local.Infections,
         Column.Infections, Local.Infections, Local.Infections),
    Line(Field.Nickname, Local.Nickname, Local.Nickname, Local.Nickname,
         Column.Nickname, Local.Nickname, Local.Nickname)]

  const LINES: seq<Line> := LINES0 + LINES1 + LINES2 + LINES3 + LINES4 + LINES5 + LINES6

  // ------------------------------------------------------- the passages agree

  /** A value goes through one local, which is the one meant for the member. */
  predicate OneLocal(r: Line) {
    r.into == r.tested == r.when == r.bound == r.value && FieldOf(r.into) == r.field
  }

  /** The column that is named is the one the member is for. */
  predicate OwnColumn(r: Line) {
    FieldAt(r.column) == r.field
  }

  lemma Locals0()
    ensures forall r :: r in LINES0 ==> OneLocal(r)
  {
  }

  lemma Columns0()
    ensures forall r :: r in LINES0 ==> OwnColumn(r)
  {
  }

  lemma Locals1()
    ensures forall r :: r in LINES1 ==> OneLocal(r)
  {
  }

  lemma Columns1()
    ensures forall r :: r in LINES1 ==> OwnColumn(r)
  {
  }

  lemma Locals2()
    ensures forall r :: r in LINES2 ==> OneLocal(r)
  {
  }

  lemma Columns2()
    ensures forall r :: r in LINES2 ==> OwnColumn(r)
  {
  }

  lemma Locals3()
    ensures forall r :: r in LINES3 ==> OneLocal(r)
  {
  }

  lemma Columns3()
    ensures forall r :: r in LINES3 ==> OwnColumn(r)
  {
  }

  lemma Locals4()
    ensures forall r :: r in LINES4 ==> OneLocal(r)
  {
  }

  lemma Columns4()
    ensures forall r :: r in LINES4 ==> OwnColumn(r)
  {
  }

  lemma Locals5()
    ensures forall r :: r in LINES5 ==> OneLocal(r)
  {
  }

  lemma Columns5()
    ensures forall r :: r in LINES5 ==> OwnColumn(r)
  {
  }

  lemma Locals6()
    ensures forall r :: r in LINES6 ==> OneLocal(r)
  {
  }

  lemma Columns6()
    ensures forall r :: r in LINES6 ==> OwnColumn(r)
  {
  }

  /** In all 42 lines the passages agree: a member's value goes through one local of its own, and
      is bound for the column the member is for. */
  lemma PassagesAgree()
    ensures forall r :: r in LINES ==> OneLocal(r) && OwnColumn(r)
  {
    hide OneLocal, OwnColumn, LINES0, LINES1, LINES2, LINES3, LINES4, LINES5, LINES6;
    Locals0(); Locals1(); Locals2(); Locals3(); Locals4(); Locals5(); Locals6();
    Columns0(); Columns1(); Columns2(); Columns3(); Columns4(); Columns5(); Columns6();
  }

  lemma PartsAreIn()
    ensures forall r ::
              r in LINES0 || r in LINES1 || r in LINES2 || r in LINES3 || r in LINES4 || r in LINES5 || r in LINES6 ==>
                r in LINES
  {
    hide LINES0, LINES1, LINES2, LINES3, LINES4, LINES5, LINES6;
  }

  /** The line of a member. */
  function LineOf(f: Field): Line {
    match f
    case ServerId => LINES0[0] case SwDailyAttempts => LINES0[1] case SwHighScore => LINES0[2]
    case SwHighestWave => LINES0[3] case SwLastUpdate => LINES0[4] case ClanKills => LINES0[5]
    case ClanDeaths => LINES1[0] case ClanAssists => LINES1[1] case ClanContribution => LINES1[2]
    case ClanWins => LINES1[3] case ClanLoses => LINES1[4] case ClanDraws => LINES1[5]
    case SelectedCharacter => LINES2[0] case PlayTime => LINES2[1] case Story => LINES2[2]
    case AchievementTier1 => LINES2[3] case VoiceType => LINES2[4] case BTutorial => LINES2[5]
    case GuideMission => LINES3[0] case Experience => LINES3[1] case MaximumItems => LINES3[2]
    case MaximumEnergy => LINES3[3] case Level => LINES3[4] case LuckyPoints => LINES3[5] case Wins => LINES4[0]
    case Loses => LINES4[1] case Draws => LINES4[2] case Kills => LINES4[3] case Deaths => LINES4[4]
    case Assists => LINES4[5] case Headshots => LINES5[0] case HighestKillStreak => LINES5[1]
    case MeleeKills => LINES5[2] case RifleKills => LINES5[3] case ShotgunKills => LINES5[4]
    case SniperKills => LINES5[5] case GatlingKills => LINES6[0] case BazookaKills => LINES6[1]
    case GrenadeKills => LINES6[2] case ZombieKills => LINES6[3] case Infections => LINES6[4]
    case Nickname => LINES6[5]
  }

  /** Every member has a line, so none is dropped. */
  lemma FieldReached(f: Field)
    ensures LineOf(f) in LINES && LineOf(f).field == f
  {
    hide LINES;
    PartsAreIn();
  }

  /** The line of a column. */
  function LineFor(c: Column): Line {
    match c
    case ServerId => LINES0[0] case SingleWaveDailyAttempts => LINES0[1] case SingleWaveHighScore => LINES0[2]
    case SingleWaveHighestWave => LINES0[3] case SingleWaveLastUpdate => LINES0[4] case ClanKills => LINES0[5]
    case ClanDeaths => LINES1[0] case ClanAssists => LINES1[1] case ClanContribution => LINES1[2]
    case ClanWins => LINES1[3] case ClanLoses => LINES1[4] case ClanDraws => LINES1[5]
    case SelectedCharacter => LINES2[0] case PlayTime => LINES2[1] case Story => LINES2[2]
    case Achievement => LINES2[3] case VoiceType => LINES2[4] case Tutorial => LINES2[5]
    case GuideMission => LINES3[0] case Experience => LINES3[1] case MaximumItems => LINES3[2]
    case MaximumEnergy => LINES3[3] case Level => LINES3[4] case LuckyPoints => LINES3[5] case Wins => LINES4[0]
    case Loses => LINES4[1] case Draws => LINES4[2] case Kills => LINES4[3] case Deaths => LINES4[4]
    case Assists => LINES4[5] case Headshots => LINES5[0] case HighestKillStreak => LINES5[1]
    case MeleeKills => LINES5[2] case RifleKills => LINES5[3] case ShotgunKills => LINES5[4]
    case SniperKills => LINES5[5] case GatlingKills => LINES6[0] case BazookaKills => LINES6[1]
    case GrenadeKills => LINES6[2] case ZombieKills => LINES6[3] case Infections => LINES6[4]
    case Nickname => LINES6[5]
  }

  /** And every column has one, so none keeps its value by mistake. */
  lemma ColumnReached(c: Column)
    ensures LineFor(c) in LINES && LineFor(c).column == c
  {
    hide LINES;
    PartsAreIn();
  }
}
