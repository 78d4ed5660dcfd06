/**
 * The catalog's records (src/types/account.ts): a listed game account with its
 * sale status, game version, media and city themes ("legendary houses").
 * Numbers are integers; the JSON `null`/`undefined` of optional values is Option.
 */
module AccountTypes {

  datatype Option<T> = None | Some(value: T)

  type Id = nat

  /** `"pending" | "sale" | "cancel"`. */
  datatype SaleStatus = Pending | Sale | Cancel

  /** `"gamota" | "japan" | "global"`. */
  datatype Version = Gamota | Japan | Global

  function SaleStatusText(s: SaleStatus): string
  {
    match s
    case Pending => "pending"
    case Sale => "sale"
    case Cancel => "cancel"
  }

  datatype ThemeType = Infantry | Archer | Cavalry | Mix | Utility

  datatype CityTheme = CityTheme(id: Id, name: string, buff: string, kind: ThemeType)

  datatype Media = Media(
    id: Id, url: string, name: string,
    alternativeText: Option<string>, caption: Option<string>,
    width: Option<nat>, height: Option<nat>,
    mime: string, size: nat)

  datatype Account = Account(
    documentId: string,
    id: Id,
    title: string,
    version: Version,
    price: int,
    vipLevel: int,
    kills: int,
    speed: int,
    goldenHeads: int,
    equipment: int,
    talent: int,
    emblem: string,
    tattoo: string,
    equipmentEmblems: string,
    tickets: int,
    resources: string,
    actionPoints: int,
    commander: string,
    legendaryHouse: string,
    saleStatus: SaleStatus,
    images: seq<Media>,
    createdAt: string,
    updatedAt: string,
    publishedAt: string,
    keyRally: bool,
    sellerName: string,
    cityThemes: seq<CityTheme>,
    thumbnailUrl: string)

  /** A file the browser hands to an `<input type="file">` handler; only its identity
      matters here. */
  datatype File = File(name: string, size: nat)
}
