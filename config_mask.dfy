/**
 * The configuration record of src/config/config.go and the masking rule of
 * src/config/mask.go, applied field by field: only the database password is
 * tagged sensitive, so it is the only field masked.
 */
module ConfigMask {

  /** config.DatabaseConfig; Password is the one field tagged `sensitive:"true"`. */
  datatype DatabaseConfig = DatabaseConfig(
    host: string,
    port: int,
    user: string,
    password: string,
    name: string,
    sslMode: string)

  /** config.FiberConfig */
  datatype FiberConfig = FiberConfig(port: int)

  /** config.Config */
  datatype Config = Config(database: DatabaseConfig, fiber: FiberConfig)

  /** n asterisks, as strings.Repeat("*", n). */
  function Stars(n: nat): (r: string)
    ensures |r| == n && forall i :: 0 <= i < n ==> r[i] == '*'
  {
    seq(n, _ => '*')
  }

  /**
   * The rule applied to a sensitive string: longer than 4 characters, six
   * asterisks and the last two characters; otherwise one asterisk per
   * character.
   */
  function Mask(raw: string): (r: string)
    ensures |raw| > 4 ==> |r| == 8 && r[..6] == "******" && r[6..] == raw[|raw| - 2..]
    ensures |raw| <= 4 ==> |r| == |raw| && forall i :: 0 <= i < |r| ==> r[i] == '*'
  {
    if |raw| > 4 then Stars(6) + raw[|raw| - 2..] else Stars(|raw|)
  }

  /**
   * What a masked string gives away: every character is an asterisk except
   * possibly the last two of a string longer than 4, which are the last two
   * of the original.
   */
  lemma MaskRevealsAtMostLastTwo(raw: string)
    ensures forall i :: 0 <= i < |Mask(raw)| && Mask(raw)[i] != '*' ==>
      |raw| > 4 && 6 <= i && Mask(raw)[i] == raw[|raw| - 8 + i]
  {
    var r := Mask(raw);
    if |raw| > 4 {
      forall i | 0 <= i < |r| && r[i] != '*'
        ensures 6 <= i && r[i] == raw[|raw| - 8 + i]
      {
        if 6 <= i {
          assert r[i] == r[6..][i - 6];
        }
      }
    }
  }

  /** Masking a masked string changes nothing: both branches map their output to itself. */
  lemma MaskIdempotent(raw: string)
    ensures Mask(Mask(raw)) == Mask(raw)
  {
    var r := Mask(raw);
    if |raw| > 4 {
      assert r == r[..6] + r[6..];
      assert r[|r| - 2..] == r[6..];
      assert Stars(6) == "******";
    } else {
      assert Stars(|r|) == r;
    }
  }

  /**
   * MaskSensitive over Config: the result carries the masked password and
   * every other field of the argument unchanged. The argument is a value,
   * so the caller's record is never altered.
   */
  function MaskSensitive(cfg: Config): (r: Config)
    ensures r.database.password == Mask(cfg.database.password)
    ensures r.database.host == cfg.database.host && r.database.port == cfg.database.port
    ensures r.database.user == cfg.database.user && r.database.name == cfg.database.name
    ensures r.database.sslMode == cfg.database.sslMode
    ensures r.fiber == cfg.fiber
  {
    cfg.(database := cfg.database.(password := Mask(cfg.database.password)))
  }

  /** Masking a configuration twice is masking it once. */
  lemma MaskSensitiveIdempotent(cfg: Config)
    ensures MaskSensitive(MaskSensitive(cfg)) == MaskSensitive(cfg)
  {
    MaskIdempotent(cfg.database.password);
  }
}
