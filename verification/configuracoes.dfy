/**
 * The configuration hook: built-in defaults merged key by key with the
 * loaded configuration, the two threshold classifiers and the feature flags.
 */
module Configuracoes {
  import opened Wrappers
  import opened Access

  /** A configuration value: JSON numbers and booleans. */
  datatype Value = Num(n: real) | Flag(b: bool)

  type Section = map<string, Value>
  type Config = map<string, Section>

  const Frequencia: string := "frequencia"
  const Boletim: string := "boletim"
  const Interface: string := "interface"
  const SectionNames: set<string> := {Frequencia, Boletim, Interface}

  const CriticoKey: string := "critico"
  const AtencaoKey: string := "atencao"
  const RegularKey: string := "regular"
  const ReprovadoKey: string := "reprovado"
  const RecuperacaoKey: string := "recuperacao"
  const AprovadoKey: string := "aprovado"
  const BoletinsDigitais: string := "boletinsDigitaisHabilitado"
  const SaudeDigital: string := "saudeDigitalHabilitado"

  /** `CONFIG_PADRAO`. */
  const Defaults: Config := map[
    Frequencia := map[CriticoKey := Num(70.0), AtencaoKey := Num(80.0), RegularKey := Num(90.0)],
    Boletim := map[ReprovadoKey := Num(5.0), RecuperacaoKey := Num(7.0), AprovadoKey := Num(7.0)],
    Interface := map[BoletinsDigitais := Flag(true), SaudeDigital := Flag(true)]
  ]

  /** `config?.[name] || {}`: a missing section reads as the empty object. */
  function SectionOf(c: Option<Config>, name: string): (r: Section)
    ensures c.Some? && name in c.value ==> r == c.value[name]
    ensures !(c.Some? && name in c.value) ==> r == map[]
  {
    if c.Some? && name in c.value then c.value[name] else map[]
  }

  /** `{ ...CONFIG_PADRAO[name], ...(loaded?.[name] || {}) }` for one section. */
  function MergedSection(loaded: Option<Config>, name: string): (r: Section)
    requires name in SectionNames
    ensures forall k :: k in r <==> k in Defaults[name] || k in SectionOf(loaded, name)
    ensures forall k :: k in SectionOf(loaded, name) ==> r[k] == SectionOf(loaded, name)[k]
    ensures forall k :: k in Defaults[name] && k !in SectionOf(loaded, name) ==> r[k] == Defaults[name][k]
  {
    Defaults[name] + SectionOf(loaded, name)
  }

  /** The merged configuration: exactly the three sections, each merged key by key. */
  function Merged(loaded: Option<Config>): (r: Config)
    ensures r.Keys == SectionNames
    ensures forall name :: name in SectionNames ==> r[name] == MergedSection(loaded, name)
  {
    map name | name in SectionNames :: MergedSection(loaded, name)
  }

  /** With nothing loaded, the merged configuration is the defaults. */
  lemma MergeOfNothing()
    ensures Merged(None) == Defaults
  {
    assert forall name :: name in SectionNames ==> MergedSection(None, name) == Defaults[name];
  }

  /** JavaScript's numeric reading of a value in a `<`/`>=` comparison. */
  function AsNumber(v: Value): real
  {
    match v
    case Num(n) => n
    case Flag(b) => if b then 1.0 else 0.0
  }

  /** JavaScript truthiness of a value. */
  predicate Truthy(v: Value)
  {
    match v
    case Num(n) => n != 0.0
    case Flag(b) => b
  }

  datatype FreqBands = FreqBands(critico: real, atencao: real, regular: real)
  datatype GradeBands = GradeBands(reprovado: real, recuperacao: real, aprovado: real)

  function FrequenciaBands(loaded: Option<Config>): (b: FreqBands)
  {
    var s := Merged(loaded)[Frequencia];
    FreqBands(AsNumber(s[CriticoKey]), AsNumber(s[AtencaoKey]), AsNumber(s[RegularKey]))
  }

  function BoletimBands(loaded: Option<Config>): (b: GradeBands)
  {
    var s := Merged(loaded)[Boletim];
    GradeBands(AsNumber(s[ReprovadoKey]), AsNumber(s[RecuperacaoKey]), AsNumber(s[AprovadoKey]))
  }

  /** A loaded threshold overrides the default; a missing one keeps it. */
  lemma BandsFollowLoaded(loaded: Config)
    ensures Frequencia in loaded && CriticoKey in loaded[Frequencia] ==>
              FrequenciaBands(Some(loaded)).critico == AsNumber(loaded[Frequencia][CriticoKey])
    ensures !(Frequencia in loaded && CriticoKey in loaded[Frequencia]) ==>
              FrequenciaBands(Some(loaded)).critico == 70.0
  {
  }

  /** The defaults give the thresholds 70/80/90 and 5/7/7. */
  lemma DefaultBands()
    ensures FrequenciaBands(None) == FreqBands(70.0, 80.0, 90.0)
    ensures BoletimBands(None) == GradeBands(5.0, 7.0, 7.0)
  {
    MergeOfNothing();
  }

  datatype FreqStatus = Critico | Atencao | Moderado | Regular
  datatype GradeStatus = Reprovado | Recuperacao | Aprovado

  /** `getStatusFrequencia`. */
  function StatusFrequencia(b: FreqBands, p: real): (s: FreqStatus)
  {
    if p < b.critico then Critico
    else if p < b.atencao then Atencao
    else if p >= b.regular then Regular
    else Moderado
  }

  /** `getStatusNota`. */
  function StatusNota(b: GradeBands, n: real): (s: GradeStatus)
  {
    if n < b.reprovado then Reprovado
    else if n < b.recuperacao then Recuperacao
    else Aprovado
  }

  /** Each grade status is exactly one band; the `aprovado` threshold plays no part. */
  lemma NotaBandsExact(b: GradeBands, n: real, otherAprovado: real)
    ensures StatusNota(b, n) == Reprovado <==> n < b.reprovado
    ensures StatusNota(b, n) == Recuperacao <==> b.reprovado <= n < b.recuperacao
    ensures StatusNota(b, n) == Aprovado <==> b.reprovado <= n && b.recuperacao <= n
    ensures StatusNota(b, n) == StatusNota(b.(aprovado := otherAprovado), n)
  {
  }

  /** With the default thresholds: [0,70) Crítico, [70,80) Atenção, [80,90) Moderado, [90,∞) Regular. */
  lemma DefaultFrequenciaBands(p: real)
    ensures var s := StatusFrequencia(FrequenciaBands(None), p);
            && (s == Critico <==> p < 70.0)
            && (s == Atencao <==> 70.0 <= p < 80.0)
            && (s == Moderado <==> 80.0 <= p < 90.0)
            && (s == Regular <==> 90.0 <= p)
  {
    DefaultBands();
  }

  function FreqRank(s: FreqStatus): nat
  {
    match s
    case Critico => 0
    case Atencao => 1
    case Moderado => 2
    case Regular => 3
  }

  /**
   * The frequency status never decreases as the percentage grows
   * (Crítico < Atenção < Moderado < Regular).  This holds for every choice of
   * thresholds, not only ordered ones.
   */
  lemma FrequenciaMonotone(b: FreqBands, p: real, q: real)
    requires p <= q
    ensures FreqRank(StatusFrequencia(b, p)) <= FreqRank(StatusFrequencia(b, q))
  {
  }

  /** `isBoletinsDigitaisHabilitado()`, read as a condition. */
  predicate BoletinsDigitaisHabilitado(loaded: Option<Config>)
  {
    Truthy(Merged(loaded)[Interface][BoletinsDigitais])
  }

  /** `isSaudeDigitalHabilitado()`, read as a condition. */
  predicate SaudeDigitalHabilitado(loaded: Option<Config>)
  {
    Truthy(Merged(loaded)[Interface][SaudeDigital])
  }

  /** Both features are on unless the loaded configuration switches them off. */
  lemma FlagsDefaultOn(loaded: Option<Config>)
    ensures BoletinsDigitais !in SectionOf(loaded, Interface) ==> BoletinsDigitaisHabilitado(loaded)
    ensures SaudeDigital !in SectionOf(loaded, Interface) ==> SaudeDigitalHabilitado(loaded)
    ensures BoletinsDigitais in SectionOf(loaded, Interface) ==>
              (BoletinsDigitaisHabilitado(loaded) <==> Truthy(SectionOf(loaded, Interface)[BoletinsDigitais]))
  {
  }

  /** The hook's query runs for any signed-in user. */
  predicate QueryEnabled(user: Option<User>)
  {
    user.Some?
  }
}
