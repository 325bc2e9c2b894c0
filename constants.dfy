/** Fixed strings and default settings of the auto-responder. */
module Constants {

  // JID suffixes
  const PersonalSuffix := "@s.whatsapp.net"
  const GroupSuffix := "@g.us"
  const LegacySuffix := "@c.us"
  const LidSuffix := "@lid"
  const BroadcastSuffix := "@broadcast"
  const StatusJid := "status@broadcast"

  // Command keys (bare names; the cooldown store prefixes them)
  const SaveQrisKey := "saveqris"
  const CatalogKey := "catalog"
  const QrisKey := "qris"
  const ThanksKey := "thanks"

  // Owner command words (matched exactly against the trimmed, lower-cased text)
  const ExcludeCommand := "exclude"
  const UnexcludeCommand := "unexclude"
  const ListExcludeCommand := "listexclude"

  // Defaults used when a variable is unset or empty
  const DefaultPrivateChatOnly := "true"
  const DefaultAcceptBayarAlias := "false"
  const DefaultCatalogTriggers := "menu"
  const DefaultQrisTriggers := "qris"
  const DefaultThanksTriggers := "terimakasih,terima kasih,makasih,makasi,thanks,thank you,thx,tq"
  const DefaultThanksReply := "Alhamdulillah kk, dengan senang hati :)"
  const DefaultThanksCooldownHours := 24
  const DefaultRateMinMs := 2500
  const DefaultRateMaxMs := 7000
  const DefaultMenuCooldownHours := 24
  const DefaultQrisCooldownHours := 24
  const DefaultProductCooldownHours := 24
  const DefaultGlobalQrisMediaGapMs := 8000
  const DefaultReconnectEnabled := "true"
  const DefaultReconnectBaseDelayMs := 2000
  const DefaultReconnectMaxDelayMs := 30000
  const DefaultQrisImageCaption := "Silakan scan QRIS ini untuk pembayaran \U{1F60A}"
  const DefaultCategoryIcon := "\U{1F4E6}"
  const DefaultQrisCatalogSavedPath := "./qris_catalog_saved.json"
}
