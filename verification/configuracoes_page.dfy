/** The ADMIN-only settings page: local copy of the configuration and its editing handlers. */
module ConfiguracoesPage {
  import opened Wrappers
  import opened Access
  import opened Configuracoes

  /** `{...c, [secao]: {...c[secao], [campo]: v}}`. */
  function SetField(c: Config, secao: string, campo: string, v: Value): (r: Config)
    ensures secao in r && campo in r[secao] && r[secao][campo] == v
    ensures r.Keys == c.Keys + {secao}
    ensures forall s :: s in c && s != secao ==> r[s] == c[s]
    ensures r[secao].Keys == SectionOf(Some(c), secao).Keys + {campo}
    ensures forall k :: k in SectionOf(Some(c), secao) && k != campo ==> r[secao][k] == SectionOf(Some(c), secao)[k]
  {
    c[secao := SectionOf(Some(c), secao)[campo := v]]
  }

  /** The page's rendering decision for the signed-in user. */
  predicate RendersPage(user: Option<User>)
  {
    RoleIs(user, AdminName)
  }

  /** `if (user && user.role !== "ADMIN") navigate("/dashboard")`. */
  predicate RedirectsToDashboard(user: Option<User>)
  {
    user.Some? && user.value.role != AdminName
  }

  /** `enabled: user?.role === "ADMIN"`. */
  predicate QueryEnabled(user: Option<User>)
  {
    RoleIs(user, AdminName)
  }

  /** The page's gates are the configuration capability; a non-ADMIN user gets nothing and is sent away. */
  lemma GatesAgree(user: Option<User>)
    ensures RendersPage(user) == Allows(user, Configure)
    ensures QueryEnabled(user) == Allows(user, Configure)
    ensures !Allows(user, Configure) ==> !RendersPage(user) && !QueryEnabled(user)
                                          && (user.Some? ==> RedirectsToDashboard(user))
  {
  }

  class SettingsPage {
    /** The local configuration, `null` until data arrives. */
    var configuracoes: Option<Config>

    constructor ()
      ensures configuracoes == None
    {
      configuracoes := None;
    }

    /** `configAtual`: what the page shows. */
    function Displayed(): Config
      reads this
    {
      Merged(configuracoes)
    }

    /** The effect that copies fetched data into local state when it is truthy. */
    method OnDataLoaded(data: Option<Config>)
      modifies this
      ensures configuracoes == if data.Some? then data else old(configuracoes)
    {
      if data.Some? {
        configuracoes := data;
      }
    }

    /** `handleInputChange(secao, campo, valor)`; `parsed` is `parseFloat(valor)`. */
    method HandleInputChange(secao: string, campo: string, parsed: Option<real>)
      modifies this
      ensures configuracoes == Some(SetField(old(configuracoes).GetOr(Defaults), secao, campo, Num(NumberOrZero(parsed))))
    {
      var base := if configuracoes.Some? then configuracoes.value else Defaults;
      configuracoes := Some(SetField(base, secao, campo, Num(NumberOrZero(parsed))));
    }

    /** `handleToggleChange(secao, campo, valor)`. */
    method HandleToggleChange(secao: string, campo: string, valor: bool)
      modifies this
      ensures configuracoes == Some(SetField(old(configuracoes).GetOr(Defaults), secao, campo, Flag(valor)))
    {
      var base := if configuracoes.Some? then configuracoes.value else Defaults;
      configuracoes := Some(SetField(base, secao, campo, Flag(valor)));
    }

    /** `handleSalvar`: the configuration sent to the backend. */
    method HandleSalvar() returns (sent: Config)
      ensures sent == configuracoes.GetOr(Defaults)
    {
      sent := if configuracoes.Some? then configuracoes.value else Defaults;
    }

    /** `handleResetar`: a reset is requested only after confirmation. */
    method HandleResetar(confirmed: bool) returns (resetRequested: bool)
      ensures resetRequested == confirmed
    {
      resetRequested := confirmed;
    }

    /** Save and reset mutations both replace local state with the backend's answer. */
    method OnMutationSuccess(data: Config)
      modifies this
      ensures configuracoes == Some(data)
    {
      configuracoes := Some(data);
    }
  }

  /** Nothing loaded displays the same as a loaded copy of the defaults. */
  lemma DisplayedFromBase(c: Option<Config>)
    ensures Merged(c) == Merged(Some(c.GetOr(Defaults)))
  {
    if c.None? {
      forall name | name in SectionNames
        ensures MergedSection(None, name) == MergedSection(Some(Defaults), name)
      {
        assert Defaults[name] + Defaults[name] == Defaults[name];
      }
    }
  }

  /** An edit leaves every other merged section as it was. */
  lemma EditKeepsOtherSection(b: Config, secao: string, campo: string, v: Value, s: string)
    requires s in SectionNames && s != secao
    ensures MergedSection(Some(SetField(b, secao, campo, v)), s) == MergedSection(Some(b), s)
  {
    assert SectionOf(Some(SetField(b, secao, campo, v)), s) == SectionOf(Some(b), s);
  }

  /** An edit changes exactly its field in the merged section. */
  lemma EditSetsMergedField(b: Config, secao: string, campo: string, v: Value)
    requires secao in SectionNames
    ensures MergedSection(Some(SetField(b, secao, campo, v)), secao) == MergedSection(Some(b), secao)[campo := v]
  {
    assert SectionOf(Some(SetField(b, secao, campo, v)), secao) == SectionOf(Some(b), secao)[campo := v];
  }

  /** An edit shows up in the displayed configuration and leaves every other displayed field alone. */
  lemma EditIsDisplayed(c: Option<Config>, secao: string, campo: string, v: Value)
    requires secao in SectionNames
    ensures var after := Merged(Some(SetField(c.GetOr(Defaults), secao, campo, v)));
            && after[secao][campo] == v
            && (forall s, k :: s in SectionNames && s != secao && k in Merged(c)[s] ==> k in after[s] && after[s][k] == Merged(c)[s][k])
            && (forall k :: k in Merged(c)[secao] && k != campo ==> k in after[secao] && after[secao][k] == Merged(c)[secao][k])
  {
    var base := c.GetOr(Defaults);
    DisplayedFromBase(c);
    EditSetsMergedField(base, secao, campo, v);
    forall s | s in SectionNames && s != secao
      ensures MergedSection(Some(SetField(base, secao, campo, v)), s) == MergedSection(Some(base), s)
    {
      EditKeepsOtherSection(base, secao, campo, v, s);
    }
  }
}
