/**
 * The display configuration of the `duration` abstract type: its form schema,
 * the transform from form values to persisted display options, the transform
 * back, and the registry entry that bundles them.
 */
module DurationConfig {
  import opened Wrappers
  import opened JsValue
  import opened FormSchema

  /** The largest unit shown when nothing is configured: minutes. */
  const DefaultMax: string := "m"
  /** The smallest unit shown when nothing is configured: seconds. */
  const DefaultMin: string := "s"

  const DurationConfigVar: string := "durationConfig"
  const MaxKey: string := "max"
  const MinKey: string := "min"
  const ShowUnitsKey: string := "show_units"
  const MenuComponent: string := "duration-config-menu"

  /** The values a form holds, by variable name. */
  type FormValues = Record

  /** A column's persisted display options; `None` is a column never configured (`null`). */
  type DisplayOptions = Option<Record>

  /** The `durationConfig` value a form starts from when nothing is configured. */
  const DefaultDurationConfig: Value := Obj(map[MaxKey := Str(DefaultMax), MinKey := Str(DefaultMin)])

  /** One custom variable, edited by the duration menu widget in a vertical container. */
  const DisplayForm: Form := Form(
    map[DurationConfigVar := Custom(DefaultDurationConfig)],
    Container(Vertical, [Static(DurationConfigVar, MenuComponent)]))

  /** `v` is `o.key` when that is set (neither absent nor null), otherwise the string `d`. */
  predicate FallsBackTo(o: DisplayOptions, key: string, d: string, v: Value)
  {
    if IsPresent(OptionalMember(o, key)) then v == o.value[key] else v == Str(d)
  }

  /**
   * Persisted display options from form values: the fields of the `durationConfig`
   * value, with `show_units` forced to `false`.
   */
  function DetermineDisplayOptions(dispFormValues: FormValues): (r: Record)
    ensures ShowUnitsKey in r && r[ShowUnitsKey] == Bool(false)
    ensures forall k :: k in r <==> k == ShowUnitsKey || k in Spread(Member(dispFormValues, DurationConfigVar))
    ensures forall k :: k in Spread(Member(dispFormValues, DurationConfigVar)) && k != ShowUnitsKey ==>
              r[k] == Spread(Member(dispFormValues, DurationConfigVar))[k]
  {
    Spread(Member(dispFormValues, DurationConfigVar))[ShowUnitsKey := Bool(false)]
  }

  /**
   * Form values from persisted display options: `max` and `min` are copied when set
   * and otherwise fall back to `DefaultMax` and `DefaultMin`, each on its own.
   */
  function ConstructDisplayFormValuesFromDisplayOptions(columnDisplayOpts: DisplayOptions): (r: FormValues)
    ensures r.Keys == {DurationConfigVar}
    ensures r[DurationConfigVar].Obj? && r[DurationConfigVar].fields.Keys == {MaxKey, MinKey}
    ensures FallsBackTo(columnDisplayOpts, MaxKey, DefaultMax, r[DurationConfigVar].fields[MaxKey])
    ensures FallsBackTo(columnDisplayOpts, MinKey, DefaultMin, r[DurationConfigVar].fields[MinKey])
  {
    map[DurationConfigVar := Obj(map[
      MaxKey := Coalesce(OptionalMember(columnDisplayOpts, MaxKey), Str(DefaultMax)),
      MinKey := Coalesce(OptionalMember(columnDisplayOpts, MinKey), Str(DefaultMin))])]
  }

  /** Load persisted options into the form, then persist the form again. */
  function RoundTrip(o: DisplayOptions): DisplayOptions
  {
    Some(DetermineDisplayOptions(ConstructDisplayFormValuesFromDisplayOptions(o)))
  }

  /** The configuration bundle a form renderer works with. */
  datatype DisplayConfig = DisplayConfig(
    form: Form,
    determineDisplayOptions: FormValues -> Record,
    constructDisplayFormValuesFromDisplayOptions: DisplayOptions -> FormValues)

  /** The registry entry of an abstract type. */
  datatype TypeConfiguration = TypeConfiguration(
    icon: string,
    cellType: string,
    getDisplayConfig: () -> DisplayConfig)

  const DurationType: TypeConfiguration := TypeConfiguration(
    ":",
    "string",
    () => DisplayConfig(DisplayForm, DetermineDisplayOptions, ConstructDisplayFormValuesFromDisplayOptions))

  // ---------------------------------------------------------------------------
  // Properties of the form schema

  /** The only static element references `durationConfig`, which is declared. */
  lemma DisplayFormWellFormed()
    ensures Leaves(DisplayForm.layout) == [Static(DurationConfigVar, MenuComponent)]
    ensures WellFormed(DisplayForm)
  {
    var leaf := Static(DurationConfigVar, MenuComponent);
    assert [leaf][1..] == [];
    assert LeavesOf([leaf]) == Leaves(leaf) + LeavesOf([]);
  }

  /** The schema's declared default is what the transform produces for a never-configured column. */
  lemma SchemaDefaultMatchesConstruct()
    ensures DisplayForm.variables[DurationConfigVar]
         == Custom(ConstructDisplayFormValuesFromDisplayOptions(None)[DurationConfigVar])
  {
  }

  /** The form values hold exactly the variables the schema declares. */
  lemma ConstructConformsToSchema(o: DisplayOptions)
    ensures ConstructDisplayFormValuesFromDisplayOptions(o).Keys == DisplayForm.variables.Keys
  {
  }

  // ---------------------------------------------------------------------------
  // Properties of the transforms

  /** With no display options both units take their defaults. */
  lemma ConstructFromAbsent()
    ensures ConstructDisplayFormValuesFromDisplayOptions(None)
         == map[DurationConfigVar := Obj(map[MaxKey := Str("m"), MinKey := Str("s")])]
  {
  }

  /** A record that sets only `max` keeps it and defaults `min`, and the other way round. */
  lemma ConstructDefaultsIndependently(unit: string)
    ensures ConstructDisplayFormValuesFromDisplayOptions(Some(map[MaxKey := Str(unit)]))
         == map[DurationConfigVar := Obj(map[MaxKey := Str(unit), MinKey := Str(DefaultMin)])]
    ensures ConstructDisplayFormValuesFromDisplayOptions(Some(map[MinKey := Str(unit)]))
         == map[DurationConfigVar := Obj(map[MaxKey := Str(DefaultMax), MinKey := Str(unit)])]
  {
  }

  /** A stored `null` falls back like an absent field; an empty string is kept. */
  lemma ConstructNullAndEmpty()
    ensures ConstructDisplayFormValuesFromDisplayOptions(Some(map[MaxKey := Null, MinKey := Str("")]))
         == map[DurationConfigVar := Obj(map[MaxKey := Str(DefaultMax), MinKey := Str("")])]
  {
  }

  /** `max` in the form depends only on `max` in the options, and `min` only on `min`. */
  lemma ConstructFieldsIndependent(o1: DisplayOptions, o2: DisplayOptions, key: string)
    requires key == MaxKey || key == MinKey
    requires OptionalMember(o1, key) == OptionalMember(o2, key)
    ensures ConstructDisplayFormValuesFromDisplayOptions(o1)[DurationConfigVar].fields[key]
         == ConstructDisplayFormValuesFromDisplayOptions(o2)[DurationConfigVar].fields[key]
  {
  }

  /** Spreading a record and forcing `show_units` replaces any `show_units` it held. */
  lemma DetermineOverridesShowUnits(config: Record)
    ensures DetermineDisplayOptions(map[DurationConfigVar := Obj(config)]) == config[ShowUnitsKey := Bool(false)]
    ensures DetermineDisplayOptions(map[DurationConfigVar := Obj(config[ShowUnitsKey := Bool(true)])])[ShowUnitsKey]
         == Bool(false)
  {
  }

  /** Form values without `durationConfig` spread nothing: only `show_units` is written. */
  lemma DetermineWithoutConfig(dispFormValues: FormValues)
    requires DurationConfigVar !in dispFormValues || dispFormValues[DurationConfigVar] == Null
    ensures DetermineDisplayOptions(dispFormValues) == map[ShowUnitsKey := Bool(false)]
  {
  }

  /** A never-configured column persists as minutes to seconds without units. */
  lemma RoundTripFromAbsent()
    ensures RoundTrip(None)
         == Some(map[MaxKey := Str("m"), MinKey := Str("s"), ShowUnitsKey := Bool(false)])
  {
  }

  /** Loading the persisted result of a round trip gives the same form values again. */
  lemma ConstructAfterRoundTrip(o: DisplayOptions)
    ensures ConstructDisplayFormValuesFromDisplayOptions(RoundTrip(o))
         == ConstructDisplayFormValuesFromDisplayOptions(o)
  {
  }

  /** A second round trip changes nothing. */
  lemma RoundTripIdempotent(o: DisplayOptions)
    ensures RoundTrip(RoundTrip(o)) == RoundTrip(o)
  {
    ConstructAfterRoundTrip(o);
  }

  // ---------------------------------------------------------------------------
  // The registry entry

  /**
   * What every abstract type's entry must provide: a well-formed form whose
   * variables are exactly those the loaded form values hold, form values loaded
   * from absent options that hold each variable's declared default, and a round
   * trip through the two transforms that is idempotent.
   */
  ghost predicate MeetsContract(t: TypeConfiguration)
  {
    var c := t.getDisplayConfig();
    && WellFormed(c.form)
    && (forall o :: c.constructDisplayFormValuesFromDisplayOptions(o).Keys == c.form.variables.Keys)
    && (forall v :: v in c.form.variables ==>
          v in c.constructDisplayFormValuesFromDisplayOptions(None)
          && c.constructDisplayFormValuesFromDisplayOptions(None)[v] == c.form.variables[v].default)
    && (forall o ::
          c.determineDisplayOptions(c.constructDisplayFormValuesFromDisplayOptions(
            Some(c.determineDisplayOptions(c.constructDisplayFormValuesFromDisplayOptions(o)))))
          == c.determineDisplayOptions(c.constructDisplayFormValuesFromDisplayOptions(o)))
  }

  /** The duration entry: icon `:`, string cells, and a display configuration that meets the contract. */
  lemma DurationTypeMeetsContract()
    ensures DurationType.icon == ":" && DurationType.cellType == "string"
    ensures DurationType.getDisplayConfig().form == DisplayForm
    ensures MeetsContract(DurationType)
  {
    var c := DurationType.getDisplayConfig();
    assert c == DisplayConfig(DisplayForm, DetermineDisplayOptions, ConstructDisplayFormValuesFromDisplayOptions);
    DisplayFormWellFormed();
    SchemaDefaultMatchesConstruct();
    forall o: DisplayOptions
      ensures c.constructDisplayFormValuesFromDisplayOptions(o).Keys == c.form.variables.Keys
    {
      ConstructConformsToSchema(o);
    }
    forall o: DisplayOptions
      ensures c.determineDisplayOptions(c.constructDisplayFormValuesFromDisplayOptions(
                Some(c.determineDisplayOptions(c.constructDisplayFormValuesFromDisplayOptions(o)))))
           == c.determineDisplayOptions(c.constructDisplayFormValuesFromDisplayOptions(o))
    {
      ConstructAfterRoundTrip(o);
    }
  }
}
