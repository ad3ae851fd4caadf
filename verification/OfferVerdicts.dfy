/**
 What a verdict on an offer means, on the events themselves: which listing is sold, for which
 owner, and exactly when an offer is accepted or refused.
 */
module OfferVerdicts {
  import opened Prelude
  import opened Evidence
  import opened Offers

  // ---- Which events count ----

  predicate IsListing(n: Note, store: string, d: string, now: int) {
    n.kind == 30402 && n.pubkey == store && TagValue(n.tags, "d") == Some(d) && n.createdAt <= now + 900
  }

  predicate IsProfile(n: Note, store: string, now: int) {
    n.kind == 0 && n.pubkey == store && n.createdAt <= now + 900
  }

  predicate IsPayoutList(n: Note, owner: string, now: int) {
    n.kind == 10133 && n.pubkey == owner && n.createdAt <= now + 900
  }

  predicate DeletesProduct(n: Note, store: string, product: Product) {
    && n.kind == 5 && n.pubkey == store
    && exists tag :: tag in n.tags && |tag| > 1 && tag[0] == "a" && tag[1] == "30402:" + product.storePubkey + ":" + product.d
  }

  /** Of the notes that count, the latest; of one date, the one with the lowest id. */
  ghost predicate IsLastWord(best: Note, notes: set<Note>, counts: Note -> bool) {
    && best in notes && counts(best)
    && forall n :: n in notes && counts(n) ==>
         n.createdAt < best.createdAt || (n.createdAt == best.createdAt && !Lower(n.id, best.id))
  }

  lemma LastWordIsNewest(notes: set<Note>, w: Wanted, counts: Note -> bool)
    requires UniqueIds(notes) && forall n :: counts(n) <==> Matches(n, w)
    ensures forall n :: Newest(notes, w) == Some(n) <==> IsLastWord(n, notes, counts)
    ensures Newest(notes, w) == None <==> forall n :: n in notes ==> !counts(n)
  {
    forall n, m ensures Beats(m, n) <==> m.createdAt > n.createdAt || (m.createdAt == n.createdAt && Lower(m.id, n.id)) {
      LessIsLower(m.id, n.id);
    }
    forall n | IsLastWord(n, notes, counts) ensures Newest(notes, w) == Some(n) {
      NewestIsUnique(Newest(notes, w), Some(n), notes, w);
    }
  }

  /** A note has lapsed if it names an expiration, unless it names one only, in one to twelve digits, that lies ahead. */
  lemma LapsedIff(n: Note, now: int)
    ensures var named := TagsNamed(n.tags, "expiration");
            IsLapsed(n, now)
            <==> named != []
                 && !(|named| == 1 && |named[0]| > 1 && 1 <= |named[0][1]| <= 12 && IsDigits(named[0][1]) && Decimal(named[0][1]) > now)
  {
  }

  /** Of several tags of one name the first counts. */
  lemma {:induction false} FirstTagCounts(tags: seq<Tag>, name: string, i: nat)
    requires i < |tags| && tags[i] != [] && tags[i][0] == name && forall j :: 0 <= j < i ==> tags[j] == [] || tags[j][0] != name
    ensures TagValue(tags, name) == if |tags[i]| > 1 then Some(tags[i][1]) else None
  {
    if i > 0 {
      FirstTagCounts(tags[1..], name, i - 1);
    }
  }

  // ---- The listing that is sold ----

  /** The store's last word on this listing, if it has not lapsed, reads as this product. */
  ghost predicate Sells(r: Readers, notes: set<Note>, store: string, d: string, now: int, product: Product) {
    exists n :: IsLastWord(n, notes, m => IsListing(m, store, d, now)) && !IsLapsed(n, now) && r.parseProduct(n) == Some(product)
  }

  ghost predicate IsDeleted(notes: set<Note>, store: string, product: Product) {
    exists n :: n in notes && DeletesProduct(n, store, product) && n.createdAt >= product.createdAt
  }

  predicate IsOnSale(product: Product) {
    product.visibility == "on-sale" || product.visibility == "pre-order"
  }

  ghost predicate HasProfile(r: Readers, notes: set<Note>, store: string, now: int, profile: Profile) {
    exists n :: IsLastWord(n, notes, m => IsProfile(m, store, now)) && !IsLapsed(n, now) && r.parseProfile(n) == Some(profile)
  }

  lemma SellsIff(r: Readers, notes: set<Note>, store: string, d: string, now: int)
    requires UniqueIds(notes)
    ensures forall product ::
              CurrentProduct(r, Newest(notes, Wanted(KIND_PRODUCT, store, Some(now), Some(d))), now) == Some(product)
              <==> Sells(r, notes, store, d, now, product)
  {
    LastWordIsNewest(notes, Wanted(KIND_PRODUCT, store, Some(now), Some(d)), m => IsListing(m, store, d, now));
  }

  lemma HasProfileIff(r: Readers, notes: set<Note>, store: string, now: int)
    requires UniqueIds(notes)
    ensures forall profile ::
              CurrentProfile(r, Newest(notes, ProfileWanted(store, now)), now) == Some(profile) <==> HasProfile(r, notes, store, now, profile)
  {
    LastWordIsNewest(notes, ProfileWanted(store, now), m => IsProfile(m, store, now));
  }

  lemma DeletesIff(n: Note, store: string, product: Product)
    ensures DeletesProduct(n, store, product)
            <==> Matches(n, DeletionWanted(store)) && Names(n, ProductAddress(product.storePubkey, product.d))
  {
    NamedTags(n.tags, "a");
  }

  lemma IsDeletedIff(notes: set<Note>, store: string, product: Product)
    ensures var deletion := Newest(Naming(notes, ProductAddress(product.storePubkey, product.d)), DeletionWanted(store));
            IsDeleted(notes, store, product) <==> deletion.Some? && deletion.value.createdAt >= product.createdAt
  {
    var naming := Naming(notes, ProductAddress(product.storePubkey, product.d));
    var deletion := Newest(naming, DeletionWanted(store));
    if deletion.Some? {
      DeletesIff(deletion.value, store, product);
    }
    if IsDeleted(notes, store, product) {
      var n :| n in notes && DeletesProduct(n, store, product) && n.createdAt >= product.createdAt;
      DeletesIff(n, store, product);
      assert n in naming;
    }
  }

  ghost predicate ForSale(r: Readers, notes: set<Note>, store: string, d: string, now: int, product: Product) {
    Sells(r, notes, store, d, now, product) && !IsDeleted(notes, store, product) && IsOnSale(product)
  }

  /** The listing the store's word rests on, and whether it is deleted. */
  lemma CurrentListing(r: Readers, notes: set<Note>, store: string, d: string, now: int) returns (product: Option<Product>, profile: Option<Profile>)
    requires UniqueIds(notes)
    ensures forall p :: product == Some(p) <==> Sells(r, notes, store, d, now, p)
    ensures forall q :: profile == Some(q) <==> HasProfile(r, notes, store, now, q)
    ensures StoresWord(r, notes, store, d, now)
            == if product.None? || IsDeleted(notes, store, product.value) then Unlisted(ProductMissing)
               else if !IsOnSale(product.value) then Unlisted(ProductNotOnSale)
               else if profile.None? then Unlisted(StoreProfileMissing)
               else Listed(product.value, profile.value)
  {
    SellsIff(r, notes, store, d, now);
    HasProfileIff(r, notes, store, now);
    product := CurrentProduct(r, Newest(notes, Wanted(KIND_PRODUCT, store, Some(now), Some(d))), now);
    profile := CurrentProfile(r, Newest(notes, ProfileWanted(store, now)), now);
    if product.Some? {
      IsDeletedIff(notes, store, product.value);
    }
  }

  /**
   What the store's own word comes to, each way: missing exactly when nothing current is listed or
   it was deleted since, off sale, without a profile, or listed with this very product and profile.
   */
  lemma ListingIff(r: Readers, notes: set<Note>, store: string, d: string, now: int)
    requires UniqueIds(notes)
    ensures var word := StoresWord(r, notes, store, d, now);
            && (word == Unlisted(ProductMissing)
                <==> forall p :: Sells(r, notes, store, d, now, p) ==> IsDeleted(notes, store, p))
            && (word == Unlisted(ProductNotOnSale)
                <==> exists p :: Sells(r, notes, store, d, now, p) && !IsDeleted(notes, store, p) && !IsOnSale(p))
            && (word == Unlisted(StoreProfileMissing)
                <==> (exists p :: ForSale(r, notes, store, d, now, p)) && forall q :: !HasProfile(r, notes, store, now, q))
            && (forall p, q :: word == Listed(p, q) <==> ForSale(r, notes, store, d, now, p) && HasProfile(r, notes, store, now, q))
  {
    var product, profile := CurrentListing(r, notes, store, d, now);
    if product.Some? {
      assert Sells(r, notes, store, d, now, product.value);
      assert !IsDeleted(notes, store, product.value) && IsOnSale(product.value) ==> ForSale(r, notes, store, d, now, product.value);
    }
    assert profile.Some? ==> HasProfile(r, notes, store, now, profile.value);
  }

  /** Past the store's own word a verdict is one of these. */
  lemma LaterVerdicts(r: Readers, notes: set<Note>, store: string, product: Product, profile: Profile, anchor: Anchor, o: Options)
    requires anchor.Anchored?
    ensures var verdict := OwnersVerdict(r, notes, store, product, profile, anchor, o);
            var standing := OwnersStanding(notes, anchor.ownerPubkey, store, anchor.fromDomain, o.now);
            var payto := Newest(notes, PaytoWanted(anchor.ownerPubkey, o.now));
            if o.pinnedOwnerPubkey.Some? && o.pinnedOwnerPubkey.value != anchor.ownerPubkey then verdict == Refused(OwnerPinMismatch)
            else if standing.Some? then
              verdict == Refused(standing.value) && standing.value in {StoreAuthRevoked, StoreAuthExpired, StoreAuthMissing}
            else if CheckOrigin(r, anchor, o).OriginRefused? then verdict == Refused(OriginMismatch)
            else if payto.None? || IsLapsed(payto.value, o.now) then verdict == Refused(PaytoMissing)
            else if Offers.Accepted(r.parsePayto(payto.value), product.accept) == [] then verdict == Refused(NoPayoutForAcceptedAssets)
            else verdict.Ok?
  {
  }

  /** The refusal for a missing product is given exactly when the store sells nothing current under this name, or deleted it since. */
  lemma ProductMissingIff(r: Readers, notes: set<Note>, store: string, d: string, keys: Option<DomainKeys>, o: Options)
    requires UniqueIds(notes)
    ensures Verdict(r, notes, store, d, keys, o) == Refused(ProductMissing)
            <==> forall p :: Sells(r, notes, store, d, o.now, p) ==> IsDeleted(notes, store, p)
  {
    ListingIff(r, notes, store, d, o.now);
    var word := StoresWord(r, notes, store, d, o.now);
    if word.Listed? {
      AnswersAreApart(r, notes, store, word.product, word.profile, keys, o);
    }
  }

  lemma AnswersAreApart(r: Readers, notes: set<Note>, store: string, product: Product, profile: Profile, keys: Option<DomainKeys>, o: Options)
    ensures var anchor := ResolveAnchor(r, store, profile, keys, o);
            if anchor.Adrift? then anchor.refusal != ProductMissing
            else OwnersVerdict(r, notes, store, product, profile, anchor, o) != Refused(ProductMissing)
  {
    var anchor := ResolveAnchor(r, store, profile, keys, o);
    if anchor.Anchored? {
      LaterVerdicts(r, notes, store, product, profile, anchor, o);
    }
  }

  // ---- Whose store it is ----

  function PublicName(r: Readers, profile: Profile): Option<Nip05> {
    if profile.nip05.Some? then r.splitNip05(profile.nip05.value) else None
  }

  /** The domain's answer is about this very name and a store; a TXT record speaks under another name only for the store it names. */
  predicate Speaks(r: Readers, store: string, profile: Profile, keys: Option<DomainKeys>) {
    var name := PublicName(r, profile);
    && name.Some? && keys.Some? && keys.value.domain == name.value.domain && keys.value.name == name.value.local
    && keys.value.storePubkey.Some?
    && (keys.value.source == NostrJson || name.value.local == "_" || keys.value.storePubkey == Some(store))
  }

  predicate NamesAnotherStore(r: Readers, store: string, profile: Profile, keys: Option<DomainKeys>) {
    Speaks(r, store, profile, keys) && keys.value.storePubkey != Some(store)
  }

  predicate IsHosted(r: Readers, profile: Profile, o: Options) {
    PublicName(r, profile).Some? && PublicName(r, profile).value.domain in o.hostedDomains
  }

  /** The domain's own entry names the store and an owner, and the profile names one too. */
  predicate Vouches(r: Readers, store: string, profile: Profile, keys: Option<DomainKeys>, o: Options) {
    && Speaks(r, store, profile, keys) && keys.value.storePubkey == Some(store) && !IsHosted(r, profile, o)
    && (keys.value.name == "_" || keys.value.source == Dns)
    && keys.value.ownerPubkey.Some? && keys.value.ownerPubkey.value != "" && profile.ownerPubkey.Some?
  }

  predicate NamesOwner(profile: Profile) {
    profile.ownerPubkey.Some? && profile.ownerPubkey.value != ""
  }

  /** Each answer about the owner, exactly when it is given. */
  lemma AnchorIff(r: Readers, store: string, profile: Profile, keys: Option<DomainKeys>, o: Options)
    ensures var anchor := ResolveAnchor(r, store, profile, keys, o);
            var foreign, vouches := NamesAnotherStore(r, store, profile, keys), Vouches(r, store, profile, keys, o);
            && (anchor == Adrift(DomainMismatch) <==> foreign)
            && (anchor == Adrift(OwnerMismatch) <==> vouches && profile.ownerPubkey != keys.value.ownerPubkey)
            && (anchor == Adrift(OwnerUnknown) <==> !foreign && !vouches && !NamesOwner(profile))
            && (anchor.Anchored? <==>
                  !foreign && NamesOwner(profile) && (vouches ==> profile.ownerPubkey == keys.value.ownerPubkey))
            && (anchor.Anchored? ==>
                  && Some(anchor.ownerPubkey) == profile.ownerPubkey && anchor.fromDomain == vouches
                  && (anchor.level == A <==> vouches)
                  && (anchor.level == B <==> Speaks(r, store, profile, keys) && IsHosted(r, profile, o))
                  && anchor.domain == (if anchor.level == C then None else Some(PublicName(r, profile).value.domain))
                  && anchor.warnings == if anchor.level == C && profile.nip05.Some? then [DomainUnverified] else [])
  {
  }

  // ---- Whether the owner stands by it ----

  ghost predicate Authorized(notes: set<Note>, owner: string, store: string, vouched: bool, now: int) {
    || (exists a :: IsLastWord(a, notes, m => IsAuth(m, owner, store, now)) && ReadStoreAuth(a, store, now) == AuthActive)
    || (vouched && forall a :: a in notes ==> !IsAuth(a, owner, store, now))
  }

  ghost predicate AuthorizationExpired(notes: set<Note>, owner: string, store: string, now: int) {
    exists a :: IsLastWord(a, notes, m => IsAuth(m, owner, store, now)) && ReadStoreAuth(a, store, now) == AuthExpired
  }

  /** The owner's answer, each way. */
  lemma StandingIff(notes: set<Note>, owner: string, store: string, vouched: bool, now: int)
    requires UniqueIds(notes)
    ensures var standing := OwnersStanding(notes, owner, store, vouched, now);
            var withdrawn := Withdrawn(notes, owner, store, now);
            && (standing == Some(StoreAuthRevoked) <==> withdrawn)
            && (standing == Some(StoreAuthExpired) <==> !withdrawn && AuthorizationExpired(notes, owner, store, now))
            && (standing == None <==> !withdrawn && Authorized(notes, owner, store, vouched, now))
            && (standing == Some(StoreAuthMissing) <==>
                  !withdrawn && !AuthorizationExpired(notes, owner, store, now) && !Authorized(notes, owner, store, vouched, now))
  {
    RevokedIffWithdrawn(notes, owner, store, vouched, now);
    LastWordIsNewest(notes, AuthWanted(owner, store, Some(now)), m => IsAuth(m, owner, store, now));
    var auth := Newest(notes, AuthWanted(owner, store, Some(now)));
    assert auth.Some? ==> IsLastWord(auth.value, notes, m => IsAuth(m, owner, store, now));
  }

  /** The value of the one mode tag. */
  function Mode(n: Note): Option<string> {
    var modes := TagsNamed(n.tags, "mode");
    if |modes| == 1 && |modes[0]| > 1 then Some(modes[0][1]) else None
  }

  predicate NamesStore(n: Note, store: string) {
    exists tag :: tag in n.tags && |tag| > 1 && tag[0] == "p" && tag[1] == store
  }

  /** Taking a store's key away needs only the mode; granting it needs the store named twice over and no lapse. */
  lemma AuthStatusIff(n: Note, owner: string, store: string, now: int)
    requires IsAuth(n, owner, store, now)
    ensures var status, expiration := ReadStoreAuth(n, store, now), ExpirationState(n.tags, now);
            var grants := (Mode(n) == Some("self-host") || Mode(n) == Some("hosted")) && NamesStore(n, store);
            && (status == AuthRevoked <==> Mode(n) == Some("revoked"))
            && (status == AuthActive <==> grants && (expiration.NoExpiration? || expiration.Active?))
            && (status == AuthExpired <==> grants && expiration == Expired)
  {
    NamedTags(n.tags, "p");
  }

  // ---- When an offer is accepted ----

  /** In strict mode the page must be on the domain that vouches. */
  predicate OriginFits(r: Readers, vouched: bool, domain: Option<string>, o: Options) {
    o.strictOrigin ==> vouched && domain.Some? && o.pageOrigin.Some? && r.originMatches(o.pageOrigin.value, domain.value)
  }

  /** The owner's last payout list is current and has an address for an asset the product accepts. */
  ghost predicate CanBePaid(r: Readers, notes: set<Note>, owner: string, product: Product, now: int) {
    exists n, t :: IsLastWord(n, notes, m => IsPayoutList(m, owner, now)) && !IsLapsed(n, now)
      && t in r.parsePayto(n) && t.caip19 in product.accept
  }

  /** Nothing speaks against selling this product of this store. */
  ghost predicate Acceptable(r: Readers, notes: set<Note>, store: string, product: Product, profile: Profile,
                             keys: Option<DomainKeys>, o: Options)
  {
    var vouched := Vouches(r, store, profile, keys, o);
    && !NamesAnotherStore(r, store, profile, keys) && NamesOwner(profile)
    && (vouched ==> profile.ownerPubkey == keys.value.ownerPubkey)
    && (o.pinnedOwnerPubkey.Some? ==> o.pinnedOwnerPubkey == profile.ownerPubkey)
    && !Withdrawn(notes, profile.ownerPubkey.value, store, o.now)
    && Authorized(notes, profile.ownerPubkey.value, store, vouched, o.now)
    && OriginFits(r, vouched, if vouched then Some(keys.value.domain) else None, o)
    && CanBePaid(r, notes, profile.ownerPubkey.value, product, o.now)
  }

  lemma OriginIff(r: Readers, store: string, profile: Profile, keys: Option<DomainKeys>, o: Options)
    requires ResolveAnchor(r, store, profile, keys, o).Anchored?
    ensures var anchor := ResolveAnchor(r, store, profile, keys, o);
            var vouched := Vouches(r, store, profile, keys, o);
            && (CheckOrigin(r, anchor, o).OriginRefused? <==>
                  !OriginFits(r, vouched, if vouched then Some(keys.value.domain) else None, o))
  {
    AnchorIff(r, store, profile, keys, o);
  }

  lemma PaidIff(r: Readers, notes: set<Note>, owner: string, product: Product, now: int)
    requires UniqueIds(notes)
    ensures var payto := Newest(notes, PaytoWanted(owner, now));
            && (forall n :: payto == Some(n) <==> IsLastWord(n, notes, m => IsPayoutList(m, owner, now)))
            && (CanBePaid(r, notes, owner, product, now) <==>
                  payto.Some? && !IsLapsed(payto.value, now) && Offers.Accepted(r.parsePayto(payto.value), product.accept) != [])
  {
    LastWordIsNewest(notes, PaytoWanted(owner, now), m => IsPayoutList(m, owner, now));
    var payto := Newest(notes, PaytoWanted(owner, now));
    if payto.Some? {
      var targets := Offers.Accepted(r.parsePayto(payto.value), product.accept);
      AcceptedMembers(r.parsePayto(payto.value), product.accept);
      if targets != [] {
        assert targets[0] in targets;
      }
    }
  }

  lemma OwnersVerdictIff(r: Readers, notes: set<Note>, store: string, product: Product, profile: Profile,
                         keys: Option<DomainKeys>, o: Options)
    requires UniqueIds(notes) && ResolveAnchor(r, store, profile, keys, o).Anchored?
    ensures OwnersVerdict(r, notes, store, product, profile, ResolveAnchor(r, store, profile, keys, o), o).Ok?
            <==> Acceptable(r, notes, store, product, profile, keys, o)
  {
    var anchor := ResolveAnchor(r, store, profile, keys, o);
    AnchorIff(r, store, profile, keys, o);
    OriginIff(r, store, profile, keys, o);
    StandingIff(notes, anchor.ownerPubkey, store, anchor.fromDomain, o.now);
    PaidIff(r, notes, anchor.ownerPubkey, product, o.now);
    LaterVerdicts(r, notes, store, product, profile, anchor, o);
  }

  lemma ListedIsAccepted(r: Readers, notes: set<Note>, store: string, d: string, product: Product, profile: Profile,
                         keys: Option<DomainKeys>, o: Options)
    requires UniqueIds(notes) && StoresWord(r, notes, store, d, o.now) == Listed(product, profile)
    ensures Verdict(r, notes, store, d, keys, o).Ok? <==> Acceptable(r, notes, store, product, profile, keys, o)
  {
    AnchorIff(r, store, profile, keys, o);
    if ResolveAnchor(r, store, profile, keys, o).Anchored? {
      OwnersVerdictIff(r, notes, store, product, profile, keys, o);
    }
  }

  ghost predicate IsSold(r: Readers, notes: set<Note>, store: string, d: string, keys: Option<DomainKeys>, o: Options, p: Product, q: Profile) {
    ForSale(r, notes, store, d, o.now, p) && HasProfile(r, notes, store, o.now, q) && Acceptable(r, notes, store, p, q, keys, o)
  }

  lemma AcceptedIsListed(r: Readers, notes: set<Note>, store: string, d: string, keys: Option<DomainKeys>, o: Options)
    requires Verdict(r, notes, store, d, keys, o).Ok?
    ensures StoresWord(r, notes, store, d, o.now).Listed?
  {
  }

  /**
   An offer is accepted exactly when the store sells a current, undeleted product and has a profile,
   and nothing speaks against its owner, its authorization, the page or the payout.
   */
  lemma AcceptedIff(r: Readers, notes: set<Note>, store: string, d: string, keys: Option<DomainKeys>, o: Options)
    requires UniqueIds(notes)
    ensures Verdict(r, notes, store, d, keys, o).Ok? <==> exists p, q :: IsSold(r, notes, store, d, keys, o, p, q)
  {
    ListingIff(r, notes, store, d, o.now);
    if Verdict(r, notes, store, d, keys, o).Ok? {
      AcceptedIsListed(r, notes, store, d, keys, o);
      var word := StoresWord(r, notes, store, d, o.now);
      ListedIsAccepted(r, notes, store, d, word.product, word.profile, keys, o);
      assert IsSold(r, notes, store, d, keys, o, word.product, word.profile);
    }
    if p, q :| IsSold(r, notes, store, d, keys, o, p, q) {
      ListedIsAccepted(r, notes, store, d, p, q, keys, o);
    }
  }

  /** The product of an accepted offer: the store's current listing, on sale, every deletion of it strictly older. */
  lemma AcceptedSellsListing(r: Readers, notes: set<Note>, store: string, d: string, keys: Option<DomainKeys>, o: Options)
    requires UniqueIds(notes) && Verdict(r, notes, store, d, keys, o).Ok?
    ensures var offer := Verdict(r, notes, store, d, keys, o).offer;
            && offer.storePubkey == store
            && (exists n :: IsLastWord(n, notes, m => IsListing(m, store, d, o.now)) && !IsLapsed(n, o.now)
                              && r.parseProduct(n) == Some(offer.product))
            && IsOnSale(offer.product)
            && (forall n :: n in notes && DeletesProduct(n, store, offer.product) ==> n.createdAt < offer.product.createdAt)
            && HasProfile(r, notes, store, o.now, offer.profile)
  {
    ListingIff(r, notes, store, d, o.now);
    var word := StoresWord(r, notes, store, d, o.now);
    AcceptedByOwner(r, notes, store, word.product, word.profile, ResolveAnchor(r, store, word.profile, keys, o), o);
    assert ForSale(r, notes, store, d, o.now, word.product);
  }

  // ---- Which refusal, once the listing and the owner are known ----

  /** The owner stands by the store: the pin holds, nothing is withdrawn and the key is authorized. */
  ghost predicate OwnerStands(notes: set<Note>, store: string, profile: Profile, vouched: bool, o: Options)
    requires profile.ownerPubkey.Some?
  {
    && (o.pinnedOwnerPubkey.Some? ==> o.pinnedOwnerPubkey == profile.ownerPubkey)
    && !Withdrawn(notes, profile.ownerPubkey.value, store, o.now)
    && Authorized(notes, profile.ownerPubkey.value, store, vouched, o.now)
  }

  /** The owner has no payout list, or one that has lapsed. */
  ghost predicate NoPayoutList(notes: set<Note>, owner: string, now: int) {
    forall n :: IsLastWord(n, notes, m => IsPayoutList(m, owner, now)) ==> IsLapsed(n, now)
  }

  lemma NoPayoutListIff(notes: set<Note>, owner: string, now: int)
    requires UniqueIds(notes)
    ensures var payto := Newest(notes, PaytoWanted(owner, now));
            NoPayoutList(notes, owner, now) <==> payto.None? || IsLapsed(payto.value, now)
  {
    LastWordIsNewest(notes, PaytoWanted(owner, now), m => IsPayoutList(m, owner, now));
    var payto := Newest(notes, PaytoWanted(owner, now));
    assert payto.Some? ==> IsLastWord(payto.value, notes, m => IsPayoutList(m, owner, now));
  }

  /** Each later refusal, exactly when it is given; an earlier one goes first. */
  lemma RefusalsIff(r: Readers, notes: set<Note>, store: string, product: Product, profile: Profile, keys: Option<DomainKeys>, o: Options)
    requires UniqueIds(notes) && ResolveAnchor(r, store, profile, keys, o).Anchored?
    ensures var verdict := OwnersVerdict(r, notes, store, product, profile, ResolveAnchor(r, store, profile, keys, o), o);
            var owner := profile.ownerPubkey.value;
            var vouched := Vouches(r, store, profile, keys, o);
            var pinned := o.pinnedOwnerPubkey.Some? ==> o.pinnedOwnerPubkey == profile.ownerPubkey;
            var stands := OwnerStands(notes, store, profile, vouched, o);
            var fits := OriginFits(r, vouched, if vouched then Some(keys.value.domain) else None, o);
            var unpaid := NoPayoutList(notes, owner, o.now);
            && (verdict == Refused(OwnerPinMismatch) <==> !pinned)
            && (verdict == Refused(StoreAuthRevoked) <==> pinned && Withdrawn(notes, owner, store, o.now))
            && (verdict == Refused(OriginMismatch) <==> stands && !fits)
            && (verdict == Refused(PaytoMissing) <==> stands && fits && unpaid)
            && (verdict == Refused(NoPayoutForAcceptedAssets) <==>
                  stands && fits && !unpaid && !CanBePaid(r, notes, owner, product, o.now))
  {
    var anchor := ResolveAnchor(r, store, profile, keys, o);
    AnchorIff(r, store, profile, keys, o);
    OriginIff(r, store, profile, keys, o);
    StandingIff(notes, anchor.ownerPubkey, store, anchor.fromDomain, o.now);
    NoPayoutListIff(notes, anchor.ownerPubkey, o.now);
    PaidIff(r, notes, anchor.ownerPubkey, product, o.now);
    LaterVerdicts(r, notes, store, product, profile, anchor, o);
  }

  // ---- What an accepted offer warns of ----

  lemma WarningsOfOrigin(r: Readers, anchor: Anchor, o: Options)
    requires anchor.Anchored? && !CheckOrigin(r, anchor, o).OriginRefused?
    ensures var warnings := CheckOrigin(r, anchor, o).warnings;
            var onDomain := anchor.level == A && anchor.domain.Some?;
            warnings == if o.pageOrigin.None? || (onDomain && r.originMatches(o.pageOrigin.value, anchor.domain.value)) then []
                        else if onDomain then [OriginMismatched] else [OriginUnverifiable]
  {
  }

  /** A payout the buyer has paid before, by the asset and the address as that chain writes it. */
  predicate WasPaidBefore(r: Readers, t: Payout, known: seq<Known>) {
    exists k :: k in known && k.caip19 == t.caip19 && r.canonicalAddress(t.chain, k.address) == Some(t.address)
  }

  /** Each warning about the owner's payouts, exactly when it is given. */
  lemma PayoutWarningsIff(r: Readers, payto: Note, payouts: seq<Payout>, o: Options)
    ensures var warnings := PayoutWarnings(r, payto, payouts, o);
            var cooldown := if o.cooldownSecs.Some? then o.cooldownSecs.value else 259200;
            var firstSeen := if o.paytoFirstSeenAt.Some? then o.paytoFirstSeenAt.value else 0;
            && (forall w :: w in warnings ==> w in [PayoutRecentlyChanged, PayoutChanged, PayoutUnsigned])
            && (PayoutRecentlyChanged in warnings <==> o.now - payto.createdAt < cooldown || o.now - firstSeen < cooldown)
            && (PayoutChanged in warnings <==>
                  o.knownPayouts.Some? && exists t :: t in payouts && !WasPaidBefore(r, t, o.knownPayouts.value))
            && (PayoutUnsigned in warnings <==> exists t :: t in payouts && !t.walletSigned)
  {
    assert forall t :: o.knownPayouts.Some? ==> (IsKnown(r, t, o.knownPayouts.value) <==> WasPaidBefore(r, t, o.knownPayouts.value));
  }

  /** The warnings of an accepted offer: of its domain, a first purchase, its page and its payouts. */
  lemma WarningsAre(r: Readers, notes: set<Note>, store: string, product: Product, profile: Profile, keys: Option<DomainKeys>, o: Options)
    requires UniqueIds(notes) && ResolveAnchor(r, store, profile, keys, o).Anchored?
    requires OwnersVerdict(r, notes, store, product, profile, ResolveAnchor(r, store, profile, keys, o), o).Ok?
    ensures var anchor := ResolveAnchor(r, store, profile, keys, o);
            var offer := OwnersVerdict(r, notes, store, product, profile, anchor, o).offer;
            exists n :: IsLastWord(n, notes, m => IsPayoutList(m, anchor.ownerPubkey, o.now)) && offer.paytoCreatedAt == n.createdAt
              && forall w :: w in offer.warnings <==>
                   || (w == DomainUnverified && anchor.level == C && profile.nip05.Some?)
                   || (w == OwnerUnpinned && o.pinnedOwnerPubkey.None?)
                   || w in CheckOrigin(r, anchor, o).warnings
                   || w in PayoutWarnings(r, n, offer.payouts, o)
  {
    var anchor := ResolveAnchor(r, store, profile, keys, o);
    PaidIff(r, notes, anchor.ownerPubkey, product, o.now);
    AcceptedByOwner(r, notes, store, product, profile, anchor, o);
    AnchorIff(r, store, profile, keys, o);
    var payto := Newest(notes, PaytoWanted(anchor.ownerPubkey, o.now)).value;
    assert IsLastWord(payto, notes, m => IsPayoutList(m, anchor.ownerPubkey, o.now));
  }

  // ---- Two passes ----

  /** The owner of an accepted offer was asked for its own word. */
  lemma OwnerWasAsked(r: Readers, net: Net, store: string, d: string, storeEvents: seq<Item>, o: Options)
    requires IdsNameContent(r.genuine)
    ensures var profile := LookedUp(r, store, storeEvents, o.now);
            var keys := Answered(r, net, profile);
            var verdict := Verdict(r, GenuineNotes(r.genuine, Bundle(net, storeEvents, Owners(profile, keys))), store, d, keys, o);
            verdict.Ok? ==> verdict.offer.ownerPubkey in Owners(profile, keys)
  {
    var profile := LookedUp(r, store, storeEvents, o.now);
    var keys := Answered(r, net, profile);
    var owners := Owners(profile, keys);
    var notes := GenuineNotes(r.genuine, Bundle(net, storeEvents, owners));
    if Verdict(r, notes, store, d, keys, o).Ok? {
      SameProfile(r, owners, store, storeEvents, if owners == {} then [] else net.ownerEvents(owners), o.now);
      JudgedProfile(r, notes, store, d, keys, o);
      var word := StoresWord(r, notes, store, d, o.now);
      AnchorIff(r, store, word.profile, keys, o);
      AcceptedByOwner(r, notes, store, word.product, word.profile, ResolveAnchor(r, store, word.profile, keys, o), o);
    }
  }

  /** What is judged is what the store's query brought, and of the owners' query their own payout, authorization and deletion events. */
  lemma BundleIs(r: Readers, net: Net, storeEvents: seq<Item>, owners: set<string>)
    ensures forall n :: n in GenuineNotes(r.genuine, Bundle(net, storeEvents, owners))
              <==> || n in GenuineNotes(r.genuine, storeEvents)
                   || (owners != {} && n in GenuineNotes(r.genuine, net.ownerEvents(owners))
                       && n.pubkey in owners && (n.kind == 10133 || n.kind == 30490 || n.kind == 5))
  {
    var asked := if owners == {} then [] else net.ownerEvents(owners);
    var own := Filter(asked, n => OwnersOwn(owners, n));
    FilteredEvidence(r.genuine, asked, n => OwnersOwn(owners, n));
    forall n ensures n in GenuineNotes(r.genuine, storeEvents + own)
                     <==> n in GenuineNotes(r.genuine, storeEvents) || n in GenuineNotes(r.genuine, own) {
      if n in GenuineNotes(r.genuine, storeEvents) {
        var x :| x in storeEvents && IsGenuine(r.genuine, x) && x.note == n;
        assert x in storeEvents + own;
      }
      if n in GenuineNotes(r.genuine, own) {
        var x :| x in own && IsGenuine(r.genuine, x) && x.note == n;
        assert x in storeEvents + own;
      }
    }
  }
}
