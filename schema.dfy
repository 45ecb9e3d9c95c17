/**
 * The database schema of the marketplace: the enumerations, their `Constants`
 * arrays, and the Row / Insert / Update shapes of the four tables
 * (`jobs`, `job_applications`, `profiles`, `user_roles`).
 */
module Schema {
  import opened Wrappers

  /** Row identifiers and user identifiers (UUIDs in the store). */
  type Id = string

  /** The `account_status` enumeration (`Enums.account_status`). */
  datatype AccountStatus = Active | Suspended | Pending

  /** The key under which the store and the client write a `AccountStatus`. */
  function AccountStatusKey(v: AccountStatus): string {
    match v
    case Active => "active"
    case Suspended => "suspended"
    case Pending => "pending"
  }

  /** Decodes a stored key; `None` for a string outside the enumeration. */
  function ParseAccountStatus(k: string): Option<AccountStatus> {
    match k
    case "active" => Some(Active)
    case "suspended" => Some(Suspended)
    case "pending" => Some(Pending)
    case _ => None
  }

  /** Position of a value in the declaration of `account_status`. */
  function AccountStatusOrdinal(v: AccountStatus): (i: nat)
    ensures i < 3
  {
    match v
    case Active => 0
    case Suspended => 1
    case Pending => 2
  }

  /** The value declared at position `i` of `account_status`. */
  function AccountStatusAt(i: nat): AccountStatus
    requires i < 3
  {
    if i == 0 then Active
    else if i == 1 then Suspended
    else Pending
  }

  lemma AccountStatusAtOrdinal(i: nat)
    requires i < 3
    ensures AccountStatusOrdinal(AccountStatusAt(i)) == i
  {
  }

  /** `Constants.public.Enums.account_status`. */
  const AccountStatusValues: seq<string> := ["active", "suspended", "pending"]

  lemma AccountStatusKeyRoundTrip(v: AccountStatus)
    ensures ParseAccountStatus(AccountStatusKey(v)) == Some(v)
  {
  }

  /** Every value's key stands in `AccountStatusValues` at the value's declaration position. */
  lemma {:induction false} AccountStatusKeysListed(v: AccountStatus)
    ensures AccountStatusOrdinal(v) < |AccountStatusValues| && AccountStatusValues[AccountStatusOrdinal(v)] == AccountStatusKey(v)
  {
    match v
    case Active => {}
    case Suspended => {}
    case Pending => {}
  }

  /**
   * The constants array lists the union type: 3 keys, each value's key at
   * its declaration position, every entry some value's key, no key twice.
   */
  lemma AccountStatusValuesMatchEnum()
    ensures |AccountStatusValues| == 3
    ensures forall v: AccountStatus :: AccountStatusValues[AccountStatusOrdinal(v)] == AccountStatusKey(v)
    ensures forall i | 0 <= i < |AccountStatusValues| :: AccountStatusKey(AccountStatusAt(i)) == AccountStatusValues[i]
    ensures forall i, j | 0 <= i < j < |AccountStatusValues| :: AccountStatusValues[i] != AccountStatusValues[j]
  {
    forall v: AccountStatus ensures AccountStatusValues[AccountStatusOrdinal(v)] == AccountStatusKey(v) {
      AccountStatusKeysListed(v);
    }
    forall i | 0 <= i < |AccountStatusValues| ensures AccountStatusKey(AccountStatusAt(i)) == AccountStatusValues[i] {
      AccountStatusAtOrdinal(i);
      AccountStatusKeysListed(AccountStatusAt(i));
    }
    forall i, j | 0 <= i < j < |AccountStatusValues| ensures AccountStatusValues[i] != AccountStatusValues[j] {
      AccountStatusAtOrdinal(i);
      AccountStatusAtOrdinal(j);
      AccountStatusKeysListed(AccountStatusAt(i));
      AccountStatusKeysListed(AccountStatusAt(j));
      AccountStatusKeyRoundTrip(AccountStatusAt(i));
      AccountStatusKeyRoundTrip(AccountStatusAt(j));
    }
  }

  /** The `app_role` enumeration (`Enums.app_role`). */
  datatype AppRole = Admin | User

  /** The key under which the store and the client write a `AppRole`. */
  function AppRoleKey(v: AppRole): string {
    match v
    case Admin => "admin"
    case User => "user"
  }

  /** Decodes a stored key; `None` for a string outside the enumeration. */
  function ParseAppRole(k: string): Option<AppRole> {
    match k
    case "admin" => Some(Admin)
    case "user" => Some(User)
    case _ => None
  }

  /** Position of a value in the declaration of `app_role`. */
  function AppRoleOrdinal(v: AppRole): (i: nat)
    ensures i < 2
  {
    match v
    case Admin => 0
    case User => 1
  }

  /** The value declared at position `i` of `app_role`. */
  function AppRoleAt(i: nat): AppRole
    requires i < 2
  {
    if i == 0 then Admin
    else User
  }

  lemma AppRoleAtOrdinal(i: nat)
    requires i < 2
    ensures AppRoleOrdinal(AppRoleAt(i)) == i
  {
  }

  /** `Constants.public.Enums.app_role`. */
  const AppRoleValues: seq<string> := ["admin", "user"]

  lemma AppRoleKeyRoundTrip(v: AppRole)
    ensures ParseAppRole(AppRoleKey(v)) == Some(v)
  {
  }

  /** Every value's key stands in `AppRoleValues` at the value's declaration position. */
  lemma {:induction false} AppRoleKeysListed(v: AppRole)
    ensures AppRoleOrdinal(v) < |AppRoleValues| && AppRoleValues[AppRoleOrdinal(v)] == AppRoleKey(v)
  {
    match v
    case Admin => {}
    case User => {}
  }

  /**
   * The constants array lists the union type: 2 keys, each value's key at
   * its declaration position, every entry some value's key, no key twice.
   */
  lemma AppRoleValuesMatchEnum()
    ensures |AppRoleValues| == 2
    ensures forall v: AppRole :: AppRoleValues[AppRoleOrdinal(v)] == AppRoleKey(v)
    ensures forall i | 0 <= i < |AppRoleValues| :: AppRoleKey(AppRoleAt(i)) == AppRoleValues[i]
    ensures forall i, j | 0 <= i < j < |AppRoleValues| :: AppRoleValues[i] != AppRoleValues[j]
  {
    forall v: AppRole ensures AppRoleValues[AppRoleOrdinal(v)] == AppRoleKey(v) {
      AppRoleKeysListed(v);
    }
    forall i | 0 <= i < |AppRoleValues| ensures AppRoleKey(AppRoleAt(i)) == AppRoleValues[i] {
      AppRoleAtOrdinal(i);
      AppRoleKeysListed(AppRoleAt(i));
    }
    forall i, j | 0 <= i < j < |AppRoleValues| ensures AppRoleValues[i] != AppRoleValues[j] {
      AppRoleAtOrdinal(i);
      AppRoleAtOrdinal(j);
      AppRoleKeysListed(AppRoleAt(i));
      AppRoleKeysListed(AppRoleAt(j));
      AppRoleKeyRoundTrip(AppRoleAt(i));
      AppRoleKeyRoundTrip(AppRoleAt(j));
    }
  }

  /** The `job_category` enumeration (`Enums.job_category`). */
  datatype JobCategory = Limpieza | Reparaciones | Mudanzas | Jardineria | CuidadoPersonas | Clases | Tecnologia | Otros

  /** The key under which the store and the client write a `JobCategory`. */
  function JobCategoryKey(v: JobCategory): string {
    match v
    case Limpieza => "limpieza"
    case Reparaciones => "reparaciones"
    case Mudanzas => "mudanzas"
    case Jardineria => "jardineria"
    case CuidadoPersonas => "cuidado_personas"
    case Clases => "clases"
    case Tecnologia => "tecnologia"
    case Otros => "otros"
  }

  /** Decodes a stored key; `None` for a string outside the enumeration. */
  function ParseJobCategory(k: string): Option<JobCategory> {
    match k
    case "limpieza" => Some(Limpieza)
    case "reparaciones" => Some(Reparaciones)
    case "mudanzas" => Some(Mudanzas)
    case "jardineria" => Some(Jardineria)
    case "cuidado_personas" => Some(CuidadoPersonas)
    case "clases" => Some(Clases)
    case "tecnologia" => Some(Tecnologia)
    case "otros" => Some(Otros)
    case _ => None
  }

  /** Position of a value in the declaration of `job_category`. */
  function JobCategoryOrdinal(v: JobCategory): (i: nat)
    ensures i < 8
  {
    match v
    case Limpieza => 0
    case Reparaciones => 1
    case Mudanzas => 2
    case Jardineria => 3
    case CuidadoPersonas => 4
    case Clases => 5
    case Tecnologia => 6
    case Otros => 7
  }

  /** The value declared at position `i` of `job_category`. */
  function JobCategoryAt(i: nat): JobCategory
    requires i < 8
  {
    if i == 0 then Limpieza
    else if i == 1 then Reparaciones
    else if i == 2 then Mudanzas
    else if i == 3 then Jardineria
    else if i == 4 then CuidadoPersonas
    else if i == 5 then Clases
    else if i == 6 then Tecnologia
    else Otros
  }

  lemma JobCategoryAtOrdinal(i: nat)
    requires i < 8
    ensures JobCategoryOrdinal(JobCategoryAt(i)) == i
  {
  }

  /** `Constants.public.Enums.job_category`. */
  const JobCategoryValues: seq<string> := ["limpieza", "reparaciones", "mudanzas", "jardineria", "cuidado_personas", "clases", "tecnologia", "otros"]

  lemma JobCategoryKeyRoundTrip(v: JobCategory)
    ensures ParseJobCategory(JobCategoryKey(v)) == Some(v)
  {
  }

  /** Every value's key stands in `JobCategoryValues` at the value's declaration position. */
  lemma {:induction false} JobCategoryKeysListed(v: JobCategory)
    ensures JobCategoryOrdinal(v) < |JobCategoryValues| && JobCategoryValues[JobCategoryOrdinal(v)] == JobCategoryKey(v)
  {
    match v
    case Limpieza => {}
    case Reparaciones => {}
    case Mudanzas => {}
    case Jardineria => {}
    case CuidadoPersonas => {}
    case Clases => {}
    case Tecnologia => {}
    case Otros => {}
  }

  /**
   * The constants array lists the union type: 8 keys, each value's key at
   * its declaration position, every entry some value's key, no key twice.
   */
  lemma JobCategoryValuesMatchEnum()
    ensures |JobCategoryValues| == 8
    ensures forall v: JobCategory :: JobCategoryValues[JobCategoryOrdinal(v)] == JobCategoryKey(v)
    ensures forall i | 0 <= i < |JobCategoryValues| :: JobCategoryKey(JobCategoryAt(i)) == JobCategoryValues[i]
    ensures forall i, j | 0 <= i < j < |JobCategoryValues| :: JobCategoryValues[i] != JobCategoryValues[j]
  {
    forall v: JobCategory ensures JobCategoryValues[JobCategoryOrdinal(v)] == JobCategoryKey(v) {
      JobCategoryKeysListed(v);
    }
    forall i | 0 <= i < |JobCategoryValues| ensures JobCategoryKey(JobCategoryAt(i)) == JobCategoryValues[i] {
      JobCategoryAtOrdinal(i);
      JobCategoryKeysListed(JobCategoryAt(i));
    }
    forall i, j | 0 <= i < j < |JobCategoryValues| ensures JobCategoryValues[i] != JobCategoryValues[j] {
      JobCategoryAtOrdinal(i);
      JobCategoryAtOrdinal(j);
      JobCategoryKeysListed(JobCategoryAt(i));
      JobCategoryKeysListed(JobCategoryAt(j));
      JobCategoryKeyRoundTrip(JobCategoryAt(i));
      JobCategoryKeyRoundTrip(JobCategoryAt(j));
    }
  }

  /** The `job_status` enumeration (`Enums.job_status`). */
  datatype JobStatus = Open | Assigned | Approved | Completed | Cancelled

  /** The key under which the store and the client write a `JobStatus`. */
  function JobStatusKey(v: JobStatus): string {
    match v
    case Open => "open"
    case Assigned => "assigned"
    case Approved => "approved"
    case Completed => "completed"
    case Cancelled => "cancelled"
  }

  /** Decodes a stored key; `None` for a string outside the enumeration. */
  function ParseJobStatus(k: string): Option<JobStatus> {
    match k
    case "open" => Some(Open)
    case "assigned" => Some(Assigned)
    case "approved" => Some(Approved)
    case "completed" => Some(Completed)
    case "cancelled" => Some(Cancelled)
    case _ => None
  }

  /** Position of a value in the declaration of `job_status`. */
  function JobStatusOrdinal(v: JobStatus): (i: nat)
    ensures i < 5
  {
    match v
    case Open => 0
    case Assigned => 1
    case Approved => 2
    case Completed => 3
    case Cancelled => 4
  }

  /** The value declared at position `i` of `job_status`. */
  function JobStatusAt(i: nat): JobStatus
    requires i < 5
  {
    if i == 0 then Open
    else if i == 1 then Assigned
    else if i == 2 then Approved
    else if i == 3 then Completed
    else Cancelled
  }

  lemma JobStatusAtOrdinal(i: nat)
    requires i < 5
    ensures JobStatusOrdinal(JobStatusAt(i)) == i
  {
  }

  /** `Constants.public.Enums.job_status`. */
  const JobStatusValues: seq<string> := ["open", "assigned", "approved", "completed", "cancelled"]

  lemma JobStatusKeyRoundTrip(v: JobStatus)
    ensures ParseJobStatus(JobStatusKey(v)) == Some(v)
  {
  }

  /** Every value's key stands in `JobStatusValues` at the value's declaration position. */
  lemma {:induction false} JobStatusKeysListed(v: JobStatus)
    ensures JobStatusOrdinal(v) < |JobStatusValues| && JobStatusValues[JobStatusOrdinal(v)] == JobStatusKey(v)
  {
    match v
    case Open => {}
    case Assigned => {}
    case Approved => {}
    case Completed => {}
    case Cancelled => {}
  }

  /**
   * The constants array lists the union type: 5 keys, each value's key at
   * its declaration position, every entry some value's key, no key twice.
   */
  lemma JobStatusValuesMatchEnum()
    ensures |JobStatusValues| == 5
    ensures forall v: JobStatus :: JobStatusValues[JobStatusOrdinal(v)] == JobStatusKey(v)
    ensures forall i | 0 <= i < |JobStatusValues| :: JobStatusKey(JobStatusAt(i)) == JobStatusValues[i]
    ensures forall i, j | 0 <= i < j < |JobStatusValues| :: JobStatusValues[i] != JobStatusValues[j]
  {
    forall v: JobStatus ensures JobStatusValues[JobStatusOrdinal(v)] == JobStatusKey(v) {
      JobStatusKeysListed(v);
    }
    forall i | 0 <= i < |JobStatusValues| ensures JobStatusKey(JobStatusAt(i)) == JobStatusValues[i] {
      JobStatusAtOrdinal(i);
      JobStatusKeysListed(JobStatusAt(i));
    }
    forall i, j | 0 <= i < j < |JobStatusValues| ensures JobStatusValues[i] != JobStatusValues[j] {
      JobStatusAtOrdinal(i);
      JobStatusAtOrdinal(j);
      JobStatusKeysListed(JobStatusAt(i));
      JobStatusKeysListed(JobStatusAt(j));
      JobStatusKeyRoundTrip(JobStatusAt(i));
      JobStatusKeyRoundTrip(JobStatusAt(j));
    }
  }

  /** The `province` enumeration (`Enums.province`). */
  datatype Province =
    Alava
    | Albacete
    | Alicante
    | Almeria
    | Asturias
    | Avila
    | Badajoz
    | Barcelona
    | Burgos
    | Caceres
    | Cadiz
    | Cantabria
    | Castellon
    | CiudadReal
    | Cordoba
    | Cuenca
    | Girona
    | Granada
    | Guadalajara
    | Guipuzcoa
    | Huelva
    | Huesca
    | IslasBaleares
    | Jaen
    | LaCoruna
    | LaRioja
    | LasPalmas
    | Leon
    | Lleida
    | Lugo
    | Madrid
    | Malaga
    | Murcia
    | Navarra
    | Ourense
    | Palencia
    | Pontevedra
    | Salamanca
    | SantaCruzTenerife
    | Segovia
    | Sevilla
    | Soria
    | Tarragona
    | Teruel
    | Toledo
    | Valencia
    | Valladolid
    | Vizcaya
    | Zamora
    | Zaragoza
    | Ceuta
    | Melilla

  /** The key under which the store and the client write a `Province`. */
  function ProvinceKey(v: Province): string {
    match v
    case Alava => "alava"
    case Albacete => "albacete"
    case Alicante => "alicante"
    case Almeria => "almeria"
    case Asturias => "asturias"
    case Avila => "avila"
    case Badajoz => "badajoz"
    case Barcelona => "barcelona"
    case Burgos => "burgos"
    case Caceres => "caceres"
    case Cadiz => "cadiz"
    case Cantabria => "cantabria"
    case Castellon => "castellon"
    case CiudadReal => "ciudad_real"
    case Cordoba => "cordoba"
    case Cuenca => "cuenca"
    case Girona => "girona"
    case Granada => "granada"
    case Guadalajara => "guadalajara"
    case Guipuzcoa => "guipuzcoa"
    case Huelva => "huelva"
    case Huesca => "huesca"
    case IslasBaleares => "islas_baleares"
    case Jaen => "jaen"
    case LaCoruna => "la_coruna"
    case LaRioja => "la_rioja"
    case LasPalmas => "las_palmas"
    case Leon => "leon"
    case Lleida => "lleida"
    case Lugo => "lugo"
    case Madrid => "madrid"
    case Malaga => "malaga"
    case Murcia => "murcia"
    case Navarra => "navarra"
    case Ourense => "ourense"
    case Palencia => "palencia"
    case Pontevedra => "pontevedra"
    case Salamanca => "salamanca"
    case SantaCruzTenerife => "santa_cruz_tenerife"
    case Segovia => "segovia"
    case Sevilla => "sevilla"
    case Soria => "soria"
    case Tarragona => "tarragona"
    case Teruel => "teruel"
    case Toledo => "toledo"
    case Valencia => "valencia"
    case Valladolid => "valladolid"
    case Vizcaya => "vizcaya"
    case Zamora => "zamora"
    case Zaragoza => "zaragoza"
    case Ceuta => "ceuta"
    case Melilla => "melilla"
  }

  /** Decodes a stored key; `None` for a string outside the enumeration. */
  function ParseProvince(k: string): Option<Province> {
    // dispatch on the first letter keeps each comparison chain short
    if k == [] then None
    else match k[0]
      case 'a' => (match k case "alava" => Some(Alava) case "albacete" => Some(Albacete) case "alicante" => Some(Alicante) case "almeria" => Some(Almeria) case "asturias" => Some(Asturias) case "avila" => Some(Avila) case _ => None)
      case 'b' => (match k case "badajoz" => Some(Badajoz) case "barcelona" => Some(Barcelona) case "burgos" => Some(Burgos) case _ => None)
      case 'c' => (match k case "caceres" => Some(Caceres) case "cadiz" => Some(Cadiz) case "cantabria" => Some(Cantabria) case "castellon" => Some(Castellon) case "ciudad_real" => Some(CiudadReal) case "cordoba" => Some(Cordoba) case "cuenca" => Some(Cuenca) case "ceuta" => Some(Ceuta) case _ => None)
      case 'g' => (match k case "girona" => Some(Girona) case "granada" => Some(Granada) case "guadalajara" => Some(Guadalajara) case "guipuzcoa" => Some(Guipuzcoa) case _ => None)
      case 'h' => (match k case "huelva" => Some(Huelva) case "huesca" => Some(Huesca) case _ => None)
      case 'i' => (match k case "islas_baleares" => Some(IslasBaleares) case _ => None)
      case 'j' => (match k case "jaen" => Some(Jaen) case _ => None)
      case 'l' => (match k case "la_coruna" => Some(LaCoruna) case "la_rioja" => Some(LaRioja) case "las_palmas" => Some(LasPalmas) case "leon" => Some(Leon) case "lleida" => Some(Lleida) case "lugo" => Some(Lugo) case _ => None)
      case 'm' => (match k case "madrid" => Some(Madrid) case "malaga" => Some(Malaga) case "murcia" => Some(Murcia) case "melilla" => Some(Melilla) case _ => None)
      case 'n' => (match k case "navarra" => Some(Navarra) case _ => None)
      case 'o' => (match k case "ourense" => Some(Ourense) case _ => None)
      case 'p' => (match k case "palencia" => Some(Palencia) case "pontevedra" => Some(Pontevedra) case _ => None)
      case 's' => (match k case "salamanca" => Some(Salamanca) case "santa_cruz_tenerife" => Some(SantaCruzTenerife) case "segovia" => Some(Segovia) case "sevilla" => Some(Sevilla) case "soria" => Some(Soria) case _ => None)
      case 't' => (match k case "tarragona" => Some(Tarragona) case "teruel" => Some(Teruel) case "toledo" => Some(Toledo) case _ => None)
      case 'v' => (match k case "valencia" => Some(Valencia) case "valladolid" => Some(Valladolid) case "vizcaya" => Some(Vizcaya) case _ => None)
      case 'z' => (match k case "zamora" => Some(Zamora) case "zaragoza" => Some(Zaragoza) case _ => None)
      case _ => None
  }

  /** Position of a value in the declaration of `province`. */
  function ProvinceOrdinal(v: Province): (i: nat)
    ensures i < 52
  {
    match v
    case Alava => 0
    case Albacete => 1
    case Alicante => 2
    case Almeria => 3
    case Asturias => 4
    case Avila => 5
    case Badajoz => 6
    case Barcelona => 7
    case Burgos => 8
    case Caceres => 9
    case Cadiz => 10
    case Cantabria => 11
    case Castellon => 12
    case CiudadReal => 13
    case Cordoba => 14
    case Cuenca => 15
    case Girona => 16
    case Granada => 17
    case Guadalajara => 18
    case Guipuzcoa => 19
    case Huelva => 20
    case Huesca => 21
    case IslasBaleares => 22
    case Jaen => 23
    case LaCoruna => 24
    case LaRioja => 25
    case LasPalmas => 26
    case Leon => 27
    case Lleida => 28
    case Lugo => 29
    case Madrid => 30
    case Malaga => 31
    case Murcia => 32
    case Navarra => 33
    case Ourense => 34
    case Palencia => 35
    case Pontevedra => 36
    case Salamanca => 37
    case SantaCruzTenerife => 38
    case Segovia => 39
    case Sevilla => 40
    case Soria => 41
    case Tarragona => 42
    case Teruel => 43
    case Toledo => 44
    case Valencia => 45
    case Valladolid => 46
    case Vizcaya => 47
    case Zamora => 48
    case Zaragoza => 49
    case Ceuta => 50
    case Melilla => 51
  }

  /** The value declared at position `i` of `province`. */
  function ProvinceAt(i: nat): Province
    requires i < 52
  {
    if i == 0 then Alava
    else if i == 1 then Albacete
    else if i == 2 then Alicante
    else if i == 3 then Almeria
    else if i == 4 then Asturias
    else if i == 5 then Avila
    else if i == 6 then Badajoz
    else if i == 7 then Barcelona
    else if i == 8 then Burgos
    else if i == 9 then Caceres
    else if i == 10 then Cadiz
    else if i == 11 then Cantabria
    else if i == 12 then Castellon
    else if i == 13 then CiudadReal
    else if i == 14 then Cordoba
    else if i == 15 then Cuenca
    else if i == 16 then Girona
    else if i == 17 then Granada
    else if i == 18 then Guadalajara
    else if i == 19 then Guipuzcoa
    else if i == 20 then Huelva
    else if i == 21 then Huesca
    else if i == 22 then IslasBaleares
    else if i == 23 then Jaen
    else if i == 24 then LaCoruna
    else if i == 25 then LaRioja
    else if i == 26 then LasPalmas
    else if i == 27 then Leon
    else if i == 28 then Lleida
    else if i == 29 then Lugo
    else if i == 30 then Madrid
    else if i == 31 then Malaga
    else if i == 32 then Murcia
    else if i == 33 then Navarra
    else if i == 34 then Ourense
    else if i == 35 then Palencia
    else if i == 36 then Pontevedra
    else if i == 37 then Salamanca
    else if i == 38 then SantaCruzTenerife
    else if i == 39 then Segovia
    else if i == 40 then Sevilla
    else if i == 41 then Soria
    else if i == 42 then Tarragona
    else if i == 43 then Teruel
    else if i == 44 then Toledo
    else if i == 45 then Valencia
    else if i == 46 then Valladolid
    else if i == 47 then Vizcaya
    else if i == 48 then Zamora
    else if i == 49 then Zaragoza
    else if i == 50 then Ceuta
    else Melilla
  }

  lemma ProvinceAtOrdinal(i: nat)
    requires i < 52
    ensures ProvinceOrdinal(ProvinceAt(i)) == i
  {
  }

  /** `Constants.public.Enums.province`. */
  // Written as 4 displays whose concatenation is the array: the
  // verifier cannot index far into a single display of this length.
  const ProvinceValues: seq<string> :=
    ["alava", "albacete", "alicante", "almeria", "asturias", "avila", "badajoz", "barcelona", "burgos", "caceres", "cadiz", "cantabria", "castellon"]
    + ["ciudad_real", "cordoba", "cuenca", "girona", "granada", "guadalajara", "guipuzcoa", "huelva", "huesca", "islas_baleares", "jaen", "la_coruna", "la_rioja"]
    + ["las_palmas", "leon", "lleida", "lugo", "madrid", "malaga", "murcia", "navarra", "ourense", "palencia", "pontevedra", "salamanca", "santa_cruz_tenerife"]
    + ["segovia", "sevilla", "soria", "tarragona", "teruel", "toledo", "valencia", "valladolid", "vizcaya", "zamora", "zaragoza", "ceuta", "melilla"]

  lemma ProvinceKeyRoundTrip0(v: Province)
    requires 0 <= ProvinceOrdinal(v) < 13
    ensures ParseProvince(ProvinceKey(v)) == Some(v)
  {
  }

  lemma ProvinceKeyRoundTrip13(v: Province)
    requires 13 <= ProvinceOrdinal(v) < 26
    ensures ParseProvince(ProvinceKey(v)) == Some(v)
  {
  }

  lemma ProvinceKeyRoundTrip26(v: Province)
    requires 26 <= ProvinceOrdinal(v) < 39
    ensures ParseProvince(ProvinceKey(v)) == Some(v)
  {
  }

  lemma ProvinceKeyRoundTrip39(v: Province)
    requires 39 <= ProvinceOrdinal(v) < 52
    ensures ParseProvince(ProvinceKey(v)) == Some(v)
  {
  }

  lemma ProvinceKeyRoundTrip(v: Province)
    ensures ParseProvince(ProvinceKey(v)) == Some(v)
  {
    if ProvinceOrdinal(v) < 13 { ProvinceKeyRoundTrip0(v); }
    else if ProvinceOrdinal(v) < 26 { ProvinceKeyRoundTrip13(v); }
    else if ProvinceOrdinal(v) < 39 { ProvinceKeyRoundTrip26(v); }
    else { ProvinceKeyRoundTrip39(v); }
  }

  /** Every value's key stands in `ProvinceValues` at the value's declaration position. */
  lemma ProvinceKeysListed0(v: Province)
    requires 0 <= ProvinceOrdinal(v) < 13
    ensures ProvinceValues[ProvinceOrdinal(v)] == ProvinceKey(v)
  {
  }

  lemma ProvinceKeysListed13(v: Province)
    requires 13 <= ProvinceOrdinal(v) < 26
    ensures ProvinceValues[ProvinceOrdinal(v)] == ProvinceKey(v)
  {
  }

  lemma ProvinceKeysListed26(v: Province)
    requires 26 <= ProvinceOrdinal(v) < 39
    ensures ProvinceValues[ProvinceOrdinal(v)] == ProvinceKey(v)
  {
  }

  lemma ProvinceKeysListed39(v: Province)
    requires 39 <= ProvinceOrdinal(v) < 52
    ensures ProvinceValues[ProvinceOrdinal(v)] == ProvinceKey(v)
  {
  }

  lemma ProvinceKeysListed(v: Province)
    ensures ProvinceOrdinal(v) < |ProvinceValues| && ProvinceValues[ProvinceOrdinal(v)] == ProvinceKey(v)
  {
    var i := ProvinceOrdinal(v);
    if i < 13 { ProvinceKeysListed0(v); } else if i < 26 { ProvinceKeysListed13(v); } else if i < 39 { ProvinceKeysListed26(v); } else { ProvinceKeysListed39(v); }
  }

  /**
   * The constants array lists the union type: 52 keys, each value's key at
   * its declaration position, every entry some value's key, no key twice.
   */
  lemma ProvinceValuesMatchEnum()
    ensures |ProvinceValues| == 52
    ensures forall v: Province :: ProvinceValues[ProvinceOrdinal(v)] == ProvinceKey(v)
    ensures forall i | 0 <= i < |ProvinceValues| :: ProvinceKey(ProvinceAt(i)) == ProvinceValues[i]
    ensures forall i, j | 0 <= i < j < |ProvinceValues| :: ProvinceValues[i] != ProvinceValues[j]
  {
    forall v: Province ensures ProvinceValues[ProvinceOrdinal(v)] == ProvinceKey(v) {
      ProvinceKeysListed(v);
    }
    forall i | 0 <= i < |ProvinceValues| ensures ProvinceKey(ProvinceAt(i)) == ProvinceValues[i] {
      ProvinceAtOrdinal(i);
      ProvinceKeysListed(ProvinceAt(i));
    }
    forall i, j | 0 <= i < j < |ProvinceValues| ensures ProvinceValues[i] != ProvinceValues[j] {
      ProvinceAtOrdinal(i);
      ProvinceAtOrdinal(j);
      ProvinceKeysListed(ProvinceAt(i));
      ProvinceKeysListed(ProvinceAt(j));
      ProvinceKeyRoundTrip(ProvinceAt(i));
      ProvinceKeyRoundTrip(ProvinceAt(j));
    }
  }


  /*
   * Rows of the four tables. Timestamps are the store's clock readings
   * (`nat`); `updated_at` is not modelled. A nullable column is an `Option`.
   */

  /** A row of `jobs`. */
  datatype Job = Job(
    id: Id,
    title: string,
    description: string,
    category: JobCategory,
    province: Province,
    budget: real,
    status: JobStatus,
    estimatedDate: Option<string>,
    publisherId: Id,
    assignedTo: Option<Id>,
    createdAt: nat)

  /** A row of `job_applications`; its `status` is free text, not an enumeration. */
  datatype JobApplication = JobApplication(
    id: Id,
    jobId: Id,
    applicantId: Id,
    message: Option<string>,
    status: Option<string>,
    createdAt: nat)

  /** A row of `profiles`. */
  datatype Profile = Profile(
    id: Id,
    userId: Id,
    firstName: string,
    lastName: string,
    email: string,
    phone: Option<string>,
    dniNie: Option<string>,
    address: Option<string>,
    province: Option<Province>,
    birthDate: Option<string>,
    accountStatus: Option<AccountStatus>,
    paymentMethod: Option<string>,
    collectionMethod: Option<string>,
    createdAt: nat)

  /** A row of `user_roles`. */
  datatype UserRole = UserRole(id: Id, userId: Id, role: AppRole, createdAt: nat)

  /*
   * Insert shapes. A field the Insert type marks optional is an `Option`
   * (`None` = key omitted, so the column default applies); for a nullable
   * optional column the inner `Option` is the value written.
   */

  /** `jobs.Insert`: six required columns; status, assignee and date are optional. */
  datatype JobInsert = JobInsert(
    title: string,
    description: string,
    category: JobCategory,
    province: Province,
    budget: real,
    publisherId: Id,
    status: Option<JobStatus>,
    estimatedDate: Option<Option<string>>,
    assignedTo: Option<Option<Id>>)

  /** `job_applications.Insert` as the client sends it: the status column is left to its default. */
  datatype ApplicationInsert = ApplicationInsert(jobId: Id, applicantId: Id, message: Option<string>)

  /** `user_roles.Insert` as the client sends it: both columns given. */
  datatype RoleInsert = RoleInsert(userId: Id, role: AppRole)

  /** Default of `jobs.status`. */
  const DefaultJobStatus: JobStatus := Open

  /** Default of `job_applications.status`. */
  const DefaultApplicationStatus: string := "pending"

  /*
   * Update shapes: `None` leaves a column alone. Only the columns some view
   * writes are present; in particular neither patch can touch `id`,
   * `publisher_id`, `user_id` or `created_at`.
   */

  /** The part of `jobs.Update` the client uses. */
  datatype JobPatch = JobPatch(
    title: Option<string>,
    description: Option<string>,
    category: Option<JobCategory>,
    province: Option<Province>,
    budget: Option<real>,
    status: Option<JobStatus>,
    estimatedDate: Option<Option<string>>,
    assignedTo: Option<Option<Id>>)

  /** A patch that writes the status column alone. */
  function StatusPatch(s: JobStatus): JobPatch {
    JobPatch(None, None, None, None, None, Some(s), None, None)
  }

  /** The part of `profiles.Update` the client uses. */
  datatype ProfilePatch = ProfilePatch(
    firstName: Option<string>,
    lastName: Option<string>,
    email: Option<string>,
    phone: Option<Option<string>>,
    dniNie: Option<Option<string>>,
    address: Option<Option<string>>,
    province: Option<Option<Province>>,
    birthDate: Option<Option<string>>,
    accountStatus: Option<Option<AccountStatus>>,
    paymentMethod: Option<Option<string>>,
    collectionMethod: Option<Option<string>>)

  /** A patch that writes `account_status` alone. */
  function AccountStatusPatch(s: AccountStatus): ProfilePatch {
    ProfilePatch(None, None, None, None, None, None, None, None, Some(Some(s)), None, None)
  }

  /** The row an update leaves: every column the patch names takes its value, the rest stay. */
  function PatchJob(j: Job, p: JobPatch): (r: Job)
    ensures r.id == j.id && r.publisherId == j.publisherId && r.createdAt == j.createdAt
    ensures p.status.Some? ==> r.status == p.status.value
    ensures p.status.None? ==> r.status == j.status
  {
    j.(title := p.title.GetOr(j.title),
       description := p.description.GetOr(j.description),
       category := p.category.GetOr(j.category),
       province := p.province.GetOr(j.province),
       budget := p.budget.GetOr(j.budget),
       status := p.status.GetOr(j.status),
       estimatedDate := p.estimatedDate.GetOr(j.estimatedDate),
       assignedTo := p.assignedTo.GetOr(j.assignedTo))
  }

  /** A status-only patch changes the status column and no other. */
  lemma StatusPatchOnlyStatus(j: Job, s: JobStatus)
    ensures PatchJob(j, StatusPatch(s)) == j.(status := s)
  {
  }

  /** The profile row an update leaves. */
  function PatchProfile(pr: Profile, p: ProfilePatch): (r: Profile)
    ensures r.id == pr.id && r.userId == pr.userId && r.createdAt == pr.createdAt
    ensures p.email.None? ==> r.email == pr.email
  {
    pr.(firstName := p.firstName.GetOr(pr.firstName),
        lastName := p.lastName.GetOr(pr.lastName),
        email := p.email.GetOr(pr.email),
        phone := p.phone.GetOr(pr.phone),
        dniNie := p.dniNie.GetOr(pr.dniNie),
        address := p.address.GetOr(pr.address),
        province := p.province.GetOr(pr.province),
        birthDate := p.birthDate.GetOr(pr.birthDate),
        accountStatus := p.accountStatus.GetOr(pr.accountStatus),
        paymentMethod := p.paymentMethod.GetOr(pr.paymentMethod),
        collectionMethod := p.collectionMethod.GetOr(pr.collectionMethod))
  }

  /** An `account_status`-only patch changes that column and no other. */
  lemma AccountStatusPatchOnlyStatus(pr: Profile, s: AccountStatus)
    ensures PatchProfile(pr, AccountStatusPatch(s)) == pr.(accountStatus := Some(s))
  {
  }
}
