/** The rules a session's authorization snapshot imposes on objects. */
module Authorization {
  import opened Bytes
  import opened Errors
  import opened Capabilities
  import opened Objects

  datatype SessionAuthorization = SessionAuthorization(
    keyId: u16,
    capabilities: CapabilitySet,
    delegated: CapabilitySet,
    domains: u16)
  {
    function RequireCapability(c: Capability): Result<()> {
      if Contains(capabilities, c) then Ok(()) else Err(InsufficientPermissions)
    }

    predicate CanSee(info: ObjectInfo) {
      Meets(domains, info.domains)
    }

    function RequireVisible(info: ObjectInfo): Result<()> {
      if CanSee(info) then Ok(()) else Err(ObjectNotFound)
    }

    function AuthorizeUse(info: ObjectInfo, session: Capability, object_: Capability): Result<()> {
      var _ :- RequireVisible(info);
      var _ :- RequireCapability(session);
      if Contains(info.capabilities, object_) then Ok(()) else Err(InsufficientPermissions)
    }

    function AuthorizeCreate(requested: ObjectInfo, command: Capability): Result<()> {
      var _ :- RequireCapability(command);
      var _ :- requested.Validate();
      if !Within(requested.domains, domains)
         || !IsSubsetOf(requested.capabilities, delegated)
         || !IsSubsetOf(requested.delegated, delegated)
      then Err(InsufficientPermissions) else Ok(())
    }

    function AuthorizeDelete(info: ObjectInfo): Result<()> {
      var _ :- RequireVisible(info);
      RequireCapability(info.objectType.DeletionCapability())
    }

    function AuthorizeWrappedExport(target: ObjectInfo, wrapKey: ObjectInfo): Result<()> {
      var _ :- AuthorizeUse(wrapKey, EXPORT_WRAPPED, EXPORT_WRAPPED);
      var _ :- RequireVisible(target);
      if !Contains(target.capabilities, EXPORTABLE_UNDER_WRAP)
         || !IsSubsetOf(target.capabilities, wrapKey.delegated)
      then Err(InsufficientPermissions) else Ok(())
    }

    function AuthorizeWrappedCreation(requested: ObjectInfo, wrapKey: ObjectInfo): Result<()> {
      var _ :- AuthorizeCreate(requested, IMPORT_WRAPPED);
      if !IsSubsetOf(requested.capabilities, wrapKey.delegated) then Err(InsufficientPermissions) else Ok(())
    }
  }

  /** Creation is allowed exactly for a valid object whose domains, capabilities and delegated
      capabilities the session may hand out. */
  lemma CreateExactly(a: SessionAuthorization, requested: ObjectInfo, command: Capability)
    ensures
      a.AuthorizeCreate(requested, command).Ok?
      <==> && command in Members(a.capabilities)
           && requested.id != 0 && requested.id != 0xffff && requested.domains != 0 && |requested.labelBytes| <= LABEL_LENGTH
           && Within(requested.domains, a.domains)
           && Members(requested.capabilities) + Members(requested.delegated) <= Members(a.delegated)
  {
    SubsetMeaning(requested.capabilities, a.delegated);
    SubsetMeaning(requested.delegated, a.delegated);
  }

  /** An object may leave under a wrap key exactly when the session sees and may use both, the
      object is exportable and the wrap key's ceiling covers it; and may come in exactly when it
      could be created and lies below that ceiling. */
  lemma WrappingExactly(a: SessionAuthorization, o: ObjectInfo, wrapKey: ObjectInfo)
    ensures
      a.AuthorizeWrappedExport(o, wrapKey).Ok?
      <==> && Meets(a.domains, wrapKey.domains) && Meets(a.domains, o.domains)
           && EXPORT_WRAPPED in Members(a.capabilities) * Members(wrapKey.capabilities)
           && EXPORTABLE_UNDER_WRAP in Members(o.capabilities)
           && Members(o.capabilities) <= Members(wrapKey.delegated)
    ensures
      a.AuthorizeWrappedCreation(o, wrapKey).Ok?
      <==> a.AuthorizeCreate(o, IMPORT_WRAPPED).Ok? && Members(o.capabilities) <= Members(wrapKey.delegated)
  {
    SubsetMeaning(o.capabilities, wrapKey.delegated);
  }

  /** An object or session whose powers stay below a delegated set and a domain mask. */
  predicate Bounded(capabilities: CapabilitySet, delegated: CapabilitySet, domains: u16, ceiling: CapabilitySet, mask: u16) {
    && IsSubsetOf(capabilities, ceiling)
    && IsSubsetOf(delegated, ceiling)
    && Within(domains, mask)
  }

  predicate InfoBounded(info: ObjectInfo, ceiling: CapabilitySet, mask: u16) {
    Bounded(info.capabilities, info.delegated, info.domains, ceiling, mask)
  }

  predicate AuthorizationBounded(a: SessionAuthorization, ceiling: CapabilitySet, mask: u16) {
    Bounded(a.capabilities, a.delegated, a.domains, ceiling, mask)
  }

  /** A session may delegate up to the ceiling: it is the root key's, or bounded itself. */
  predicate DelegatesWithin(a: SessionAuthorization, ceiling: CapabilitySet, mask: u16) {
    IsSubsetOf(a.delegated, ceiling) && Within(a.domains, mask)
  }

  /** Creation attenuates: what a session may create is bounded by whatever bounds its delegation. */
  lemma CreationAttenuates(
    a: SessionAuthorization, requested: ObjectInfo, command: Capability, ceiling: CapabilitySet, mask: u16)
    requires a.AuthorizeCreate(requested, command).Ok? && DelegatesWithin(a, ceiling, mask)
    ensures InfoBounded(requested, ceiling, mask)
  {
    SubsetTransitive(requested.capabilities, a.delegated, ceiling);
    SubsetTransitive(requested.delegated, a.delegated, ceiling);
    WithinTransitive(requested.domains, a.domains, mask);
  }

  /** A hidden object gives the answer of a missing one, whatever the capabilities involved. */
  lemma HiddenLooksMissing(a: SessionAuthorization, info: ObjectInfo, session: Capability, object_: Capability)
    requires !a.CanSee(info)
    ensures a.RequireVisible(info) == Err(ObjectNotFound)
    ensures a.AuthorizeUse(info, session, object_) == Err(ObjectNotFound)
    ensures a.AuthorizeDelete(info) == Err(ObjectNotFound)
  {
  }

  /** A bounded authorization lacks every capability the ceiling lacks. */
  lemma BoundedLacks(a: SessionAuthorization, ceiling: CapabilitySet, mask: u16, c: Capability)
    requires AuthorizationBounded(a, ceiling, mask) && !Contains(ceiling, c)
    ensures a.RequireCapability(c) == Err(InsufficientPermissions)
  {
    if Contains(a.capabilities, c) {
      SubsetContains(a.capabilities, ceiling, c);
    }
  }
}
